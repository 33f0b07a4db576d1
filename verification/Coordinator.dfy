/** `Coordinator::mutate` and `Coordinator::open_with`: the state machine behind its lock, with
    the file it is saved to. */
module Coordinators {
  import opened Base
  import opened LeaseSpec
  import opened LeaseBooks
  import opened LeaseRuns
  import opened Persistence

  class Coordinator {
    const state: LeaseBook
    var file: State

    ghost function Sys(): System
      reads this, state
    {
      Up(state.Value(), file)
    }

    constructor (state: LeaseBook, file: State)
      ensures this.state == state && this.file == file
    {
      this.state, this.file := state, file;
    }

    /** The closure a request runs under the lock. */
    method Perform(step: Step, now: u64)
      modifies state
      ensures state.Value() == Apply(old(state.Value()), step, now)
    {
      match step
      case AddJobStep(id, spec) => if id !in state.jobs { state.AddJob(id, spec); }
      case RegisterStep(key, capability, source) => var _ := state.Register(key, capability, source, now);
      case NoteStep(key, ts, nowNanos) => var _ := state.NoteRegistration(key, ts, nowNanos);
      case PollStep(worker) => var _ := state.Lease(worker, now);
      case HeartbeatStep(worker, job) => var _ := state.Renew(worker, job, now);
      case SubmitStep(worker, job, result) => var _ := state.Submit(worker, job, result, now);
      case ExpireStep => var _ := state.ExpireLeases(now);
    }

    /** `Store::save`: replaces the file, or fails with either version in place. */
    method Save(outcome: SaveOutcome) returns (ok: bool)
      modifies this
      ensures file == DiskAfter(state.Value(), old(file), outcome) && ok == outcome.Saved?
    {
      if !outcome.FailedOld? {
        file := Serialize(state.Value());
      }
      ok := outcome.Saved?;
    }

    /** `mutate`: run the closure, save if it changed anything durable, and keep the change
        pending when the save fails. */
    method Mutate(step: Step, now: u64, outcome: SaveOutcome) returns (ok: bool)
      modifies this, state
      ensures Sys() == Next(old(Sys()), Ask(step, now, outcome), old(state.policy))
      ensures !ok ==> state.dirty
    {
      Perform(step, now);
      var dirty := state.TakeDirty();
      ok := true;
      if dirty {
        ok := Save(outcome);
        if !ok {
          state.MarkDirty();
        }
      }
    }
  }

  /** `open_with`: load, apply the policy, give live leases a fresh window, save once. The result
      is the running coordinator, or none with the file as the failed save left it. */
  method OpenWith(disk: State, policy: Policy, now: u64, outcome: SaveOutcome)
    returns (c: Coordinator?, file: State)
    ensures var sys := Next(Down(disk), Boot(now, outcome), policy);
            if sys.Up? then c != null && fresh(c) && c.Sys() == sys else c == null && file == sys.disk
  {
    var book := new LeaseBook.Load(disk, policy);
    var _ := book.RevokeOutOfPolicy();
    book.GraceLiveLeases(now);
    var dirty := book.TakeDirty();
    c, file := null, disk;
    if dirty {
      if !outcome.FailedOld? {
        file := Serialize(book.Value());
      }
      if !outcome.Saved? {
        return;
      }
    }
    c := new Coordinator(book, file);
  }
}
