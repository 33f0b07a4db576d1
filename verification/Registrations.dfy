/** Signed registrations are accepted at most once, restarts included: how `register_inner`,
    `note_registration` and the saved file work together. */
module Registrations {
  import opened Base
  import opened LeaseSpec
  import opened LeaseRuns
  import opened Persistence

  type Signed = (Addr, u64)

  /** The accepted registrations memory and the file remember, and those answered with success. */
  datatype Desk = Desk(recent: set<Signed>, onFile: set<Signed>, accepted: seq<Signed>)

  datatype Attempt =
    /** A signed body whose freshness was checked at `freshAt` and that took the lock at
        `lookupAt`; `admitted` says whether budget, source and registry had room. */
    | Register(body: Signed, freshAt: u64, lookupAt: u64, admitted: bool, saved: bool, newFile: bool)
    /** Any other request that saves. */
    | Save(at: u64, saved: bool, newFile: bool)
    /** A restart reads the file back. */
    | Restart(at: u64)

  function At(a: Attempt): u64 {
    match a
    case Register(_, _, lookupAt, _, _, _) => lookupAt
    case Save(at, _, _) => at
    case Restart(at) => at
  }

  function Pruned(recent: set<Signed>, now: u64): set<Signed> {
    set e | e in recent && AbsDiff(e.1, now) <= LEASE_FRESHNESS_NANOS
  }

  predicate Accepts(d: Desk, a: Attempt) {
    && a.Register? && a.admitted && Fresh(a.body.1, a.freshAt) && a.body !in d.recent
  }

  function Next(d: Desk, a: Attempt): Desk {
    match a
    case Register(body, freshAt, lookupAt, _, saved, newFile) =>
      if !Accepts(d, a) then d
      else
        var recent := Pruned(d.recent, lookupAt) + {body};
        Desk(recent, if saved || newFile then recent else d.onFile,
             if saved then d.accepted + [body] else d.accepted)
    case Save(_, saved, newFile) => if saved || newFile then d.(onFile := d.recent) else d
    case Restart(_) => d.(recent := d.onFile)
  }

  ghost predicate IsRun(ds: seq<Desk>, xs: seq<Attempt>) {
    && |ds| == |xs| + 1 && ds[0] == Desk({}, {}, [])
    && (forall k | 0 <= k < |xs| :: ds[k + 1] == Next(ds[k], xs[k]))
    && (forall k, m | 0 <= k < m < |xs| :: At(xs[k]) <= At(xs[m]))
    && (forall k | 0 <= k < |xs| && xs[k].Register? :: xs[k].freshAt <= xs[k].lookupAt)
  }

  /** The registration is still fresh when it takes the lock. */
  predicate StillFresh(a: Attempt) {
    a.Register? ==> Fresh(a.body.1, a.lookupAt)
  }

  /** Is the body remembered, or too old for any later instant? */
  predicate Covered(recent: set<Signed>, body: Signed, now: u64) {
    body in recent || body.1 + LEASE_FRESHNESS_NANOS < now
  }

  ghost predicate AllCovered(d: Desk, now: u64) {
    forall i | 0 <= i < |d.accepted| :: Covered(d.recent, d.accepted[i], now) && Covered(d.onFile, d.accepted[i], now)
  }

  /** Entries are never remembered from beyond the allowed skew. */
  ghost predicate NotFuture(d: Desk, now: u64) {
    forall e | e in d.recent + d.onFile :: e.1 <= SatAdd(now, MAX_FUTURE_SKEW_NANOS)
  }

  lemma PruningCovers(recent: set<Signed>, body: Signed, t: u64, now: u64)
    requires Covered(recent, body, t) && t <= now
    requires body in recent ==> body.1 <= SatAdd(now, MAX_FUTURE_SKEW_NANOS)
    ensures Covered(Pruned(recent, now), body, now)
  {
  }

  lemma NextCovers(d: Desk, a: Attempt, t: u64)
    requires AllCovered(d, t) && NotFuture(d, t) && t <= At(a) && (a.Register? ==> a.freshAt <= a.lookupAt)
    ensures AllCovered(Next(d, a), At(a)) && NotFuture(Next(d, a), At(a))
  {
    var d' := Next(d, a);
    forall i | 0 <= i < |d.accepted|
      ensures Covered(d'.recent, d.accepted[i], At(a)) && Covered(d'.onFile, d.accepted[i], At(a))
    {
      PruningCovers(d.recent, d.accepted[i], t, At(a));
    }
  }

  function Now(xs: seq<Attempt>, n: nat): u64
    requires n <= |xs|
  {
    if n == 0 then 0 else At(xs[n - 1])
  }

  lemma {:induction false} CoveredThroughout(ds: seq<Desk>, xs: seq<Attempt>, n: nat)
    requires IsRun(ds, xs) && n <= |xs|
    ensures AllCovered(ds[n], Now(xs, n)) && NotFuture(ds[n], Now(xs, n))
  {
    if n > 0 {
      CoveredThroughout(ds, xs, n - 1);
      NextCovers(ds[n - 1], xs[n - 1], Now(xs, n - 1));
      assert ds[n - 1 + 1] == Next(ds[n - 1], xs[n - 1]);
    }
  }

  /** Accepted at most once, unless stale at the lock: on every run of registrations, saves, failed saves
      and restarts, a body accepted before is accepted again only by an attempt that was fresh when it was
      checked and no longer is when it takes the lock, whatever the other attempts are like. */
  lemma RepeatsOnlyWhenStaleAtTheLock(ds: seq<Desk>, xs: seq<Attempt>, n: nat, i: nat)
    requires IsRun(ds, xs) && n < |xs| && Accepts(ds[n], xs[n]) && i < |ds[n].accepted|
    requires xs[n].body == ds[n].accepted[i]
    ensures !StillFresh(xs[n])
  {
    CoveredThroughout(ds, xs, n);
    assert Covered(ds[n].recent, ds[n].accepted[i], Now(xs, n));
  }

  lemma {:induction false} AcceptedGrows(ds: seq<Desk>, xs: seq<Attempt>, n: nat, k: nat)
    requires IsRun(ds, xs) && n <= |xs| && k < |ds[n].accepted|
    ensures exists m | 0 <= m < n :: AcceptedBy(ds, xs, m, n, k)
  {
    if n > 0 {
      assert ds[n - 1 + 1] == Next(ds[n - 1], xs[n - 1]);
      if k < |ds[n - 1].accepted| {
        AcceptedGrows(ds, xs, n - 1, k);
        var m :| 0 <= m < n - 1 && AcceptedBy(ds, xs, m, n - 1, k);
        assert AcceptedBy(ds, xs, m, n, k);
      } else {
        assert AcceptedBy(ds, xs, n - 1, n, k);
      }
    }
  }

  /** Attempt `m` is the one answered with success as the `k`-th of those known after `n`. */
  ghost predicate AcceptedBy(ds: seq<Desk>, xs: seq<Attempt>, m: nat, n: nat, k: nat)
    requires |ds| == |xs| + 1 && m < n <= |xs|
  {
    && k < |ds[n].accepted| && |ds[m].accepted| == k && Accepts(ds[m], xs[m]) && xs[m].body == ds[n].accepted[k]
    && ds[m].accepted <= ds[n].accepted
  }

  /** In particular a body whose every attempt is fresh at the lock is accepted at most once. */
  lemma AcceptedAtMostOnce(ds: seq<Desk>, xs: seq<Attempt>, n: nat, i: nat, k: nat)
    requires IsRun(ds, xs) && n <= |xs| && i < k < |ds[n].accepted|
    requires forall m | 0 <= m < n && xs[m].Register? && xs[m].body == ds[n].accepted[k] :: StillFresh(xs[m])
    ensures ds[n].accepted[i] != ds[n].accepted[k]
  {
    AcceptedGrows(ds, xs, n, k);
    var m :| 0 <= m < n && AcceptedBy(ds, xs, m, n, k);
    if ds[n].accepted[i] == ds[n].accepted[k] {
      assert ds[m].accepted[i] == ds[n].accepted[i];
      RepeatsOnlyWhenStaleAtTheLock(ds, xs, m, i);
      assert false;
    }
  }

  /** And every such body can be accepted twice: `register_inner` checks freshness before it takes the lock,
      so a body fresh when checked and out of the window at the lock is accepted again, once another
      registration has pruned it. */
  lemma StaleAtTheLockIsAcceptedTwice(body: Signed, other: Signed, freshAt: u64, lookupAt: u64)
    returns (ds: seq<Desk>, xs: seq<Attempt>)
    requires Fresh(body.1, freshAt) && freshAt <= lookupAt && body.1 + LEASE_FRESHNESS_NANOS < lookupAt
    requires other != body && Fresh(other.1, lookupAt)
    ensures IsRun(ds, xs) && |xs| == 3 && xs[2] == Register(body, freshAt, lookupAt, true, true, false)
    ensures ds[3].accepted == [body, other, body]
  {
    var x0 := Register(body, body.1, body.1, true, true, false);
    var x1 := Register(other, lookupAt, lookupAt, true, true, false);
    var x2 := Register(body, freshAt, lookupAt, true, true, false);
    var d0 := Desk({}, {}, []);
    var d1 := Next(d0, x0);
    assert Pruned({}, body.1) + {body} == {body} && d1.recent == {body};
    var d2 := Next(d1, x1);
    assert body !in Pruned({body}, lookupAt);
    assert d2.recent == {other} && d2.accepted == [body, other];
    var d3 := Next(d2, x2);
    ds, xs := [d0, d1, d2, d3], [x0, x1, x2];
  }

  // ---- the same desk in the state and on file ---------------------------------------------------

  /** The desk remembers what the coordinator's memory and file do. */
  ghost predicate Mirrors(d: Desk, sys: System) {
    d.onFile == sys.disk.recent && (sys.Up? ==> d.recent == sys.mem.recent)
  }

  /** `note_registration` and the save that follows it do to memory and file what the desk says. */
  lemma DeskFollowsNote(d: Desk, sys: System, body: Signed, now: u64, at: u64, outcome: SaveOutcome, policy: Policy)
    requires Mirrors(d, sys) && sys.Up? && Fresh(body.1, at) && body !in d.recent
    ensures Mirrors(Next(d, Register(body, at, at, true, outcome.Saved?, outcome.FailedNew?)),
                    Persistence.Next(sys, Ask(NoteStep(body.0, body.1, at), now, outcome), policy))
  {
    assert body == (body.0, body.1);
  }

  /** Any other request that saves does too, and one that need not save leaves both alone. */
  lemma DeskFollowsSave(d: Desk, sys: System, step: Step, now: u64, outcome: SaveOutcome, policy: Policy)
    requires Mirrors(d, sys) && sys.Up? && !step.NoteStep?
    ensures var sys' := Persistence.Next(sys, Ask(step, now, outcome), policy);
            if Apply(sys.mem, step, now).dirty then Mirrors(Next(d, Save(now, outcome.Saved?, outcome.FailedNew?)), sys')
            else Mirrors(d, sys')
  {
    RecentFixed(sys.mem, step, now);
  }

  /** And so does a crash followed by a boot. */
  lemma DeskFollowsRestart(d: Desk, sys: System, now: u64, outcome: SaveOutcome, policy: Policy)
    requires Mirrors(d, sys)
    ensures var down := Persistence.Next(sys, Crash(now), policy);
            Mirrors(Next(d, Restart(now)), Persistence.Next(down, Boot(now, outcome), policy))
  {
  }

  /** Only `note_registration` touches the accepted registrations. */
  lemma RecentFixed(s: State, step: Step, now: u64)
    requires !step.NoteStep?
    ensures Apply(s, step, now).recent == s.recent
  {
    match step
    case RegisterStep(key, c, source) => RegisterLeavesRecent(s, key, c, source, now);
    case PollStep(w) => if w in s.workers { PollLeavesRecent(s, w, now); }
    case AddJobStep(_, _) =>
    case HeartbeatStep(_, _) =>
    case SubmitStep(_, _, _) =>
    case ExpireStep =>
  }

  lemma RoomsLeaveRecent(s: State, source: Source, holders: set<Addr>, now: u64)
    ensures var r := MakeRoomForSource(s, source, now); r.Ok? ==> r.value.recent == s.recent
    ensures var r := MakeRoomInRegistry(s, holders, now); r.Ok? ==> r.value.recent == s.recent
  {
  }

  lemma RegisterLeavesRecent(s: State, key: Addr, c: Capability, source: Source, now: u64)
    ensures LeaseSpec.Register(s, key, c, source, now).0.recent == s.recent
  {
    if key !in s.workers {
      var s0 := s.(dirty := true);
      RoomsLeaveRecent(s0, source, Holders(s, now), now);
      var room := if key in s.policy.trusted then Ok(s0) else MakeRoomForSource(s0, source, now);
      if room.Ok? {
        RoomsLeaveRecent(room.value, source, Holders(s, now), now);
      }
    }
  }

  lemma PollLeavesRecent(s: State, w: Addr, now: u64)
    requires w in s.workers
    ensures Lease(s, w, now).0.recent == s.recent
  {
    AssignLeavesRecent(ExpireLeases(Touch(s, w, now), now), w, now);
  }

  lemma AssignLeavesRecent(s: State, w: Addr, now: u64)
    requires w in s.workers
    ensures Assign(s, w, now).0.recent == s.recent
  {
  }

  // ---- over every history of the whole system -----------------------------------------------------

  /** Some registration, of whatever body, is noted at `at`. */
  predicate Notes(e: Event, at: u64) {
    e.Ask? && e.step.NoteStep? && e.step.nowNanos == at
  }

  /** A registration of this body passes every check and is answered with success; it takes the lock at `at`. */
  predicate Succeeds(sys: System, e: Event, body: Signed, at: u64) {
    sys.Up? && e.Ask? && e.step == NoteStep(body.0, body.1, at) && body !in sys.mem.recent && e.outcome.Saved?
  }

  /** The clock in nanoseconds, at each registration noted, does not go back. */
  ghost predicate NotedInOrder(es: seq<Event>) {
    forall k, m, at, later | 0 <= k < m < |es| && Notes(es[k], at) && Notes(es[m], later) :: at <= later
  }

  function NotedAt(e: Event, t: u64): u64 {
    if e.Ask? && e.step.NoteStep? then e.step.nowNanos else t
  }

  /** Memory and file remember the body, or it is too old for any later instant. */
  predicate Kept(sys: System, body: Signed, t: u64) {
    Covered(sys.disk.recent, body, t) && (sys.Up? ==> Covered(sys.mem.recent, body, t))
  }

  lemma AskKeepsBody(mem: State, disk: State, step: Step, now: u64, outcome: SaveOutcome, policy: Policy, body: Signed, t: u64)
    requires Kept(Up(mem, disk), body, t) && body.1 <= SatAdd(t, MAX_FUTURE_SKEW_NANOS)
    requires step.NoteStep? ==> t <= step.nowNanos
    ensures Kept(Persistence.Next(Up(mem, disk), Ask(step, now, outcome), policy), body, if step.NoteStep? then step.nowNanos else t)
  {
    if step.NoteStep? {
      PruningCovers(mem.recent, body, t, step.nowNanos);
      assert Pruned(mem.recent, step.nowNanos) <= Apply(mem, step, now).recent;
    } else {
      RecentFixed(mem, step, now);
    }
    MutateIsApply(mem, Request(step, now, outcome.Saved?));
  }

  lemma EventKeepsBody(sys: System, e: Event, policy: Policy, body: Signed, t: u64)
    requires Kept(sys, body, t) && body.1 <= SatAdd(t, MAX_FUTURE_SKEW_NANOS) && t <= NotedAt(e, t)
    ensures Kept(Persistence.Next(sys, e, policy), body, NotedAt(e, t))
  {
    if e.Ask? && sys.Up? {
      AskKeepsBody(sys.mem, sys.disk, e.step, e.now, e.outcome, policy, body, t);
    }
  }

  /** Once answered with success it is kept through anything, from event `j` on. */
  lemma {:induction false} KeptFrom(xs: seq<System>, es: seq<Event>, policy: Policy, body: Signed, at: u64, j: nat, n: nat) returns (t: u64)
    requires IsHistory(xs, es, policy) && NotedInOrder(es) && j < n <= |es|
    requires Succeeds(xs[j], es[j], body, at) && body.1 <= SatAdd(at, MAX_FUTURE_SKEW_NANOS)
    ensures at <= t && Kept(xs[n], body, t)
    ensures forall m, later | n <= m < |es| && Notes(es[m], later) :: t <= later
    decreases n
  {
    assert xs[n - 1 + 1] == Persistence.Next(xs[n - 1], es[n - 1], policy);
    if n == j + 1 {
      t := at;
      assert Notes(es[j], at);
      SuccessKeeps(xs[j], es[j], policy, body, at);
    } else {
      var before := KeptFrom(xs, es, policy, body, at, j, n - 1);
      t := NotedAt(es[n - 1], before);
      assert es[n - 1].Ask? && es[n - 1].step.NoteStep? ==> Notes(es[n - 1], t);
      EventKeepsBody(xs[n - 1], es[n - 1], policy, body, before);
    }
  }

  lemma SuccessKeeps(sys: System, e: Event, policy: Policy, body: Signed, at: u64)
    requires Succeeds(sys, e, body, at)
    ensures Kept(Persistence.Next(sys, e, policy), body, at)
  {
    MutateIsApply(sys.mem, Request(e.step, e.now, true));
    assert body == (body.0, body.1);
  }

  /** Over every history of requests, failed saves, crashes and boots, whatever else is registered and when:
      a body answered with success once is answered so again only by an attempt no longer fresh when it takes
      the lock. In particular one whose own attempts are fresh at the lock succeeds at most once. */
  lemma SucceedsOnceOnEveryHistory(xs: seq<System>, es: seq<Event>, policy: Policy, body: Signed, at: u64, again: u64, j: nat, k: nat)
    requires IsHistory(xs, es, policy) && NotedInOrder(es) && j < k < |es|
    requires Succeeds(xs[j], es[j], body, at) && body.1 <= SatAdd(at, MAX_FUTURE_SKEW_NANOS)
    requires Succeeds(xs[k], es[k], body, again)
    ensures !Fresh(body.1, again)
  {
    var t := KeptFrom(xs, es, policy, body, at, j, k);
    assert Notes(es[k], again);
  }
}
