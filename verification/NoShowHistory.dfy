/** No-show history survives eviction, slot reclaim, re-registration and restarts: the bounded registry
    and penalty maps agree with an ideal ledger that never forgets anybody. */
module NoShowHistory {
  import opened Base
  import opened LeaseSpec
  import opened LeaseRuns
  import opened LeaseInvariants
  import opened LeaseTheorems
  import opened LeaseLives

  /** What the coordinator remembers of a key, wherever it is kept. */
  function View(s: State, k: Addr): Penalty {
    if k in s.workers then Penalty(s.workers[k].noshows, s.workers[k].cooldownUntil)
    else if k in s.penalties then s.penalties[k]
    else Penalty(0, 0)
  }

  type Ledger = map<Addr, Penalty>

  function Entry(ledger: Ledger, k: Addr): Penalty {
    if k in ledger then ledger[k] else Penalty(0, 0)
  }

  /** Registered workers whose lease a request finds lapsed. */
  predicate Charged(s: State, r: Request, k: Addr) {
    && (r.step.ExpireStep? || (r.step.PollStep? && r.step.worker in s.workers))
    && k in s.workers && LapsedOf(s, s.jobs.Keys, k, r.now) != {}
  }

  /** A vouched delivery, the only thing that clears a no-show count. */
  predicate Cleared(s: State, r: Request, k: Addr) {
    && r.step.SubmitStep? && r.step.worker == k && k in s.workers && k in s.policy.trusted
    && Submit(s, k, r.step.job, r.step.result, r.now).1.Ok?
  }

  /** One more consecutive no-show at `now`. */
  function Charge(p: Penalty, now: u64): Penalty {
    var n := SatAdd32(p.noshows, 1);
    Penalty(n, SatAdd(now, NoshowBackoff(n)))
  }

  function NextEntry(p: Penalty, charged: bool, cleared: bool, now: u64): Penalty {
    if charged then Charge(p, now) else if cleared then p.(noshows := 0) else p
  }

  /** The ideal ledger after a request: unbounded, and blind to registrations. */
  function NextLedger(ledger: Ledger, s: State, r: Request): Ledger {
    map k | k in ledger.Keys + s.workers.Keys ::
      NextEntry(Entry(ledger, k), Charged(s, r, k), Cleared(s, r, k), r.now)
  }

  /** Keys whose penalty the request pushed out of the bounded map. */
  predicate Dropped(s: State, r: Request, s': State, k: Addr) {
    && k in s.penalties && k !in s'.penalties
    && !(r.step.RegisterStep? && r.step.key == k && k in s'.workers && View(s', k) == s.penalties[k])
  }

  function NextLost(lost: set<Addr>, s: State, r: Request, s': State): set<Addr> {
    lost + set k | k in s.penalties && Dropped(s, r, s', k)
  }

  /** Equal counts, and cool-downs equal as long as they matter. */
  predicate Same(a: Penalty, b: Penalty, t: u64) {
    a.noshows == b.noshows && (a.cooldownUntil == b.cooldownUntil || (a.cooldownUntil <= t && b.cooldownUntil <= t))
  }

  ghost predicate Agrees(s: State, ledger: Ledger, lost: set<Addr>, t: u64) {
    forall k :: k !in lost ==> Same(View(s, k), Entry(ledger, k), t)
  }

  /** A run with its ideal ledger and the keys the bounded map has lost so far. */
  datatype Books = Books(ledger: Ledger, lost: set<Addr>)

  /** A request moves the books on; a restart leaves them alone. */
  ghost predicate BooksMove(s: State, m: Move, s': State, b: Books, b': Books) {
    match m
    case Asked(r) => b' == Books(NextLedger(b.ledger, s, r), NextLost(b.lost, s, r, s'))
    case Resumed(_) => b' == b
  }

  ghost predicate BooksMoveAt(ss: seq<State>, ms: seq<Move>, bs: seq<Books>, k: nat)
    requires k < |ms| && |ss| == |bs| == |ms| + 1
  {
    BooksMove(ss[k], ms[k], ss[k + 1], bs[k], bs[k + 1])
  }

  /** A life with its books. */
  ghost predicate Kept(ss: seq<State>, ms: seq<Move>, bs: seq<Books>) {
    IsLife(ss, ms) && |bs| == |ss| && forall k | 0 <= k < |ms| :: BooksMoveAt(ss, ms, bs, k)
  }

  ghost function BooksAfter(ss: seq<State>, ms: seq<Move>, n: nat): Books
    requires n <= |ms| && |ss| == |ms| + 1
  {
    if n == 0 then Books(map[], {})
    else
      var b := BooksAfter(ss, ms, n - 1);
      match ms[n - 1]
      case Asked(r) => Books(NextLedger(b.ledger, ss[n - 1], r), NextLost(b.lost, ss[n - 1], r, ss[n]))
      case Resumed(_) => b
  }

  /** The books of a life, from empty ones. */
  ghost function BooksAlong(ss: seq<State>, ms: seq<Move>): (bs: seq<Books>)
    requires |ss| == |ms| + 1
    ensures |bs| == |ss| && bs[0] == Books(map[], {})
  {
    seq(|ss|, n requires 0 <= n <= |ms| => BooksAfter(ss, ms, n))
  }

  lemma BooksAlongAreKept(ss: seq<State>, ms: seq<Move>)
    requires IsLife(ss, ms)
    ensures Kept(ss, ms, BooksAlong(ss, ms))
  {
    forall k | 0 <= k < |ms| ensures BooksMoveAt(ss, ms, BooksAlong(ss, ms), k) {
      BooksAfterMoves(ss, ms, k);
    }
  }

  lemma BooksAfterMoves(ss: seq<State>, ms: seq<Move>, k: nat)
    requires k < |ms| && |ss| == |ms| + 1
    ensures BooksMove(ss[k], ms[k], ss[k + 1], BooksAfter(ss, ms, k), BooksAfter(ss, ms, k + 1))
  {
  }

  // ---- what each request does to a key's history ---------------------------------------

  lemma ExpireCharges(s: State, now: u64, k: Addr)
    requires OneLease(s)
    ensures View(ExpireLeases(s, now), k)
         == if k in s.workers && LapsedOf(s, s.jobs.Keys, k, now) != {} then Charge(View(s, k), now) else View(s, k)
    ensures ExpireLeases(s, now).penalties == s.penalties
  {
    ChargedOnce(s, k, now);
    if k in s.workers && LapsedOf(s, s.jobs.Keys, k, now) != {} {
      var i :| i in LapsedOf(s, s.jobs.Keys, k, now);
    }
  }

  lemma PollCharges(s: State, w: Addr, now: u64, k: Addr)
    requires OneLease(s) && w in s.workers
    ensures View(Lease(s, w, now).0, k)
         == if k in s.workers && LapsedOf(s, s.jobs.Keys, k, now) != {} then Charge(View(s, k), now) else View(s, k)
    ensures Lease(s, w, now).0.penalties == s.penalties
  {
    var t := Touch(s, w, now);
    assert LapsedOf(t, t.jobs.Keys, k, now) == LapsedOf(s, s.jobs.Keys, k, now);
    ExpireCharges(t, now, k);
    AssignLeavesBooks(ExpireLeases(t, now), w, now);
  }

  /** Making room keeps every history it does not push out. */
  ghost predicate Remembers(s: State, s': State, now: u64, k: Addr) {
    && (k in s'.penalties || k !in s.penalties ==> Same(View(s', k), View(s, k), now))
    && (k in s.penalties && k !in s'.penalties ==> |s.penalties| == MAX_WORKERS && k !in s'.workers)
    && (k in s.penalties && k in s'.penalties ==> s'.penalties[k] == s.penalties[k])
  }

  lemma KeepRemembers(penalties: map<Addr, Penalty>, id: Addr, p: Penalty, k: Addr)
    requires |penalties| <= MAX_WORKERS && id !in penalties
    ensures var kept := KeepPenalty(penalties, id, p);
            && id in kept && kept[id] == p
            && (k in kept && k != id ==> k in penalties && kept[k] == penalties[k])
            && (k in penalties && k !in kept ==> |penalties| == MAX_WORKERS)
  {
    KeepPenaltyFacts(penalties, id, p);
  }

  /** Forgetting a worker moves its history aside, or drops one that no longer matters. */
  lemma ForgetRemembers(s: State, id: Addr, now: u64, k: Addr)
    requires Bounds(s) && id in s.workers && NoShowsOk(s, now)
    ensures Remembers(s, ForgetWorker(s, id, now), now, k)
  {
    KeepRemembers(s.penalties, id, Penalty(s.workers[id].noshows, s.workers[id].cooldownUntil), k);
  }

  lemma AdmitRestores(s: State, id: Addr, c: Capability, source: Source, now: u64, k: Addr)
    requires Bounds(s) && id !in s.workers
    ensures View(Admit(s, id, c, source, now), k) == View(s, k)
  {
  }

  lemma SourceRoomRemembers(s: State, source: Source, now: u64, k: Addr)
    requires Core(s, now)
    ensures var r := MakeRoomForSource(s, source, now); r.Ok? ==> Remembers(s, r.value, now, k)
  {
    var stale := StaleSlots(s, source, now);
    if stale != map[] {
      assert MinKey(stale) in stale;
      ForgetRemembers(s, MinKey(stale), now, k);
    }
  }

  lemma RegistryRoomRemembers(s: State, holders: set<Addr>, now: u64, k: Addr)
    requires Core(s, now)
    ensures var r := MakeRoomInRegistry(s, holders, now); r.Ok? ==> Remembers(s, r.value, now, k)
  {
    var victims := Evictable(s, holders);
    if victims != map[] {
      assert MinKey(victims) in victims;
      ForgetRemembers(s, MinKey(victims), now, k);
    }
  }

  /** A room made at the source leaves the registry below its bound, so at most one worker is
      forgotten per registration. */
  lemma OneRoom(s: State, source: Source, holders: set<Addr>, now: u64)
    requires Core(s, now)
    ensures var r := MakeRoomForSource(s, source, now);
            r.Ok? && r.value != s ==> MakeRoomInRegistry(r.value, holders, now) == Ok(r.value)
  {
    var stale := StaleSlots(s, source, now);
    if |SlotsOf(s, source)| >= s.policy.maxWorkersPerSource && stale != map[] {
      assert MinKey(stale) in stale;
      ForgetKeepsBounds(s, MinKey(stale), now);
    }
  }

  lemma RoomsRemember(s: State, id: Addr, source: Source, now: u64, k: Addr)
    requires Core(s, now)
    ensures var room := if id in s.policy.trusted then Ok(s) else MakeRoomForSource(s, source, now);
            room.Ok? ==>
              && Remembers(s, room.value, now, k)
              && var space := MakeRoomInRegistry(room.value, Holders(s, now), now);
                 space.Ok? ==> Remembers(s, space.value, now, k)
  {
    SourceRoomRemembers(s, source, now, k);
    RegistryRoomRemembers(s, Holders(s, now), now, k);
    OneRoom(s, source, Holders(s, now), now);
  }

  lemma RoomsKeepCore(s: State, id: Addr, source: Source, now: u64)
    requires Core(s, now)
    ensures var room := if id in s.policy.trusted then Ok(s) else MakeRoomForSource(s, source, now);
            room.Ok? ==>
              && Core(room.value, now)
              && room.value.workers.Keys <= s.workers.Keys
              && var space := MakeRoomInRegistry(room.value, Holders(s, now), now);
                 space.Ok? ==> Core(space.value, now) && space.value.workers.Keys <= s.workers.Keys
  {
    MakeRoomKeeps(s, source, now);
    var room := if id in s.policy.trusted then Ok(s) else MakeRoomForSource(s, source, now);
    if room.Ok? {
      assert Holders(room.value, now) == Holders(s, now);
      RegistryRoomKeeps(room.value, now);
    }
  }

  ghost predicate RegisteredWell(s: State, s': State, id: Addr, c: Capability, source: Source, now: u64, k: Addr) {
    var r := Request(RegisterStep(id, c, source), now, true);
    && (!Dropped(s, r, s', k) ==> Same(View(s', k), View(s, k), now))
    && (Dropped(s, r, s', k) ==> |s.penalties| == MAX_WORKERS)
  }

  lemma NewcomerRemembers(s0: State, id: Addr, c: Capability, source: Source, now: u64, k: Addr)
    requires Core(s0, now) && id !in s0.workers && s0.dirty
    ensures RegisteredWell(s0, Register(s0, id, c, source, now).0, id, c, source, now, k)
  {
    assert s0.(dirty := true) == s0;
    RoomsRemember(s0, id, source, now, k);
    RoomsKeepCore(s0, id, source, now);
    var room := if id in s0.policy.trusted then Ok(s0) else MakeRoomForSource(s0, source, now);
    if room.Ok? {
      var space := MakeRoomInRegistry(room.value, Holders(s0, now), now);
      if space.Ok? {
        AdmitRestores(space.value, id, c, source, now, k);
        AdmittedHistory(s0, space.value, id, c, source, now, k);
      } else {
        assert Register(s0, id, c, source, now).0 == room.value;
      }
    }
  }

  lemma RegisterRemembers(s: State, id: Addr, c: Capability, source: Source, now: u64, k: Addr)
    requires Core(s, now)
    ensures RegisteredWell(s, Register(s, id, c, source, now).0, id, c, source, now, k)
  {
    if id !in s.workers {
      DirtyIrrelevant(s, now);
      DirtyNewcomer(s, id, c, source, now);
      NewcomerRemembers(s.(dirty := true), id, c, source, now, k);
      DirtyForgotten(s, Register(s, id, c, source, now).0, id, c, source, now, k);
    } else {
      RefreshRemembers(s, id, c, source, now, k);
    }
  }

  lemma DirtyForgotten(s: State, s': State, id: Addr, c: Capability, source: Source, now: u64, k: Addr)
    requires RegisteredWell(s.(dirty := true), s', id, c, source, now, k)
    ensures RegisteredWell(s, s', id, c, source, now, k)
  {
  }

  lemma RefreshRemembers(s: State, id: Addr, c: Capability, source: Source, now: u64, k: Addr)
    requires id in s.workers
    ensures RegisteredWell(s, Register(s, id, c, source, now).0, id, c, source, now, k)
  {
  }

  lemma AdmittedHistory(s0: State, s1: State, id: Addr, c: Capability, source: Source, now: u64, k: Addr)
    requires Core(s0, now) && Core(s1, now) && id !in s0.workers && s1.workers.Keys <= s0.workers.Keys
    requires Remembers(s0, s1, now, k) && View(Admit(s1, id, c, source, now), k) == View(s1, k)
    ensures RegisteredWell(s0, Admit(s1, id, c, source, now), id, c, source, now, k)
  {
  }

  function Expected(s: State, r: Request, k: Addr): Penalty {
    NextEntry(View(s, k), Charged(s, r, k), Cleared(s, r, k), r.now)
  }

  lemma OtherHistory(s: State, r: Request, k: Addr)
    requires OneLease(s) && !r.step.RegisterStep?
    ensures var s' := Apply(s, r.step, r.now);
            s'.penalties == s.penalties && View(s', k) == Expected(s, r, k)
  {
    match r.step
    case PollStep(w) => if w in s.workers { PollCharges(s, w, r.now, k); }
    case ExpireStep => ExpireCharges(s, r.now, k);
    case SubmitStep(w, i, result) => SubmitHistory(s, w, i, result, r.now, k);
    case HeartbeatStep(w, i) => RenewHistory(s, w, i, r.now, k);
    case AddJobStep(_, _) =>
    case NoteStep(_, _, _) =>
  }

  /** The history of any key after any request. */
  lemma RequestHistory(s: State, r: Request, k: Addr)
    requires Core(s, r.now)
    ensures var s' := Mutate(s, r);
            && (!Dropped(s, r, s', k) ==> Same(View(s', k), Expected(s, r, k), r.now))
            && (Dropped(s, r, s', k) ==> |s.penalties| == MAX_WORKERS)
  {
    MutateIsApply(s, r);
    assert View(Mutate(s, r), k) == View(Apply(s, r.step, r.now), k);
    if r.step.RegisterStep? {
      RegisterRemembers(s, r.step.key, r.step.capability, r.step.source, r.now, k);
    } else {
      OtherHistory(s, r, k);
    }
  }

  lemma RenewHistory(s: State, w: Addr, i: JobId, now: u64, k: Addr)
    ensures View(Renew(s, w, i, now).0, k) == View(s, k) && Renew(s, w, i, now).0.penalties == s.penalties
  {
  }

  lemma SubmitHistory(s: State, w: Addr, i: JobId, result: string, now: u64, k: Addr)
    ensures var (s', r) := Submit(s, w, i, result, now);
            && s'.penalties == s.penalties
            && View(s', k) == if r.Ok? && k == w && k in s.workers && k in s.policy.trusted
                              then View(s, k).(noshows := 0) else View(s, k)
  {
  }

  // ---- the theorems ----------------------------------------------------------------------

  lemma ViewCools(s: State, k: Addr, t: u64)
    requires NoShowsOk(s, t)
    ensures CoolingOk(View(s, k).noshows, View(s, k).cooldownUntil, t)
  {
  }

  /** A no-show is only ever added with a later cool-down. */
  lemma ChargeIsLater(p: Penalty, now: u64)
    requires CoolingOk(p.noshows, p.cooldownUntil, now)
    ensures p.cooldownUntil <= Charge(p, now).cooldownUntil
  {
    BackoffGrows(p.noshows, SatAdd32(p.noshows, 1));
  }

  lemma LedgerStep(s: State, t: u64, r: Request, b: Books, k: Addr)
    requires Core(s, t) && t <= r.now && k !in NextLost(b.lost, s, r, Mutate(s, r))
    requires Same(View(s, k), Entry(b.ledger, k), t)
    ensures Same(View(Mutate(s, r), k), Entry(NextLedger(b.ledger, s, r), k), r.now)
    ensures Entry(b.ledger, k).cooldownUntil <= Entry(NextLedger(b.ledger, s, r), k).cooldownUntil
  {
    LaterIsFine(s, t, r.now);
    RequestHistory(s, r, k);
    ViewCools(s, k, r.now);
    EntryStep(View(s, k), Entry(b.ledger, k), Charged(s, r, k), Cleared(s, r, k), t, r.now);
    NextLedgerEntry(b.ledger, s, r, k);
  }

  lemma EntryStep(view: Penalty, entry: Penalty, charged: bool, cleared: bool, t: u64, now: u64)
    requires Same(view, entry, t) && t <= now && CoolingOk(view.noshows, view.cooldownUntil, now)
    ensures Same(NextEntry(view, charged, cleared, now), NextEntry(entry, charged, cleared, now), now)
    ensures entry.cooldownUntil <= NextEntry(entry, charged, cleared, now).cooldownUntil
  {
    ChargeIsLater(entry, now);
  }

  lemma NextLedgerEntry(ledger: Ledger, s: State, r: Request, k: Addr)
    ensures Entry(NextLedger(ledger, s, r), k)
         == NextEntry(Entry(ledger, k), Charged(s, r, k), Cleared(s, r, k), r.now)
  {
  }

  lemma RequestAgrees(s: State, t: u64, r: Request, b: Books, s': State, b': Books)
    requires Core(s, t) && t <= r.now && Agrees(s, b.ledger, b.lost, t) && s' == Mutate(s, r)
    requires b' == Books(NextLedger(b.ledger, s, r), NextLost(b.lost, s, r, s'))
    ensures Agrees(s', b'.ledger, b'.lost, r.now)
  {
    forall k | k !in b'.lost ensures Same(View(s', k), Entry(b'.ledger, k), r.now) {
      LedgerStep(s, t, r, b, k);
    }
  }

  lemma RestartAgrees(s: State, t: u64, now: u64, b: Books, s': State)
    requires Agrees(s, b.ledger, b.lost, t) && t <= now && Resumes(s, s', now)
    ensures Agrees(s', b.ledger, b.lost, now)
  {
    forall k | k !in b.lost ensures Same(View(s', k), Entry(b.ledger, k), now) {
      assert k in s.workers ==> WorkerResumed(s.workers[k], s'.workers[k]);
    }
  }

  lemma MoveAgrees(s: State, t: u64, m: Move, b: Books, s': State, b': Books)
    requires Core(s, t) && t <= At(m) && Agrees(s, b.ledger, b.lost, t)
    requires Moves(s, m, s') && BooksMove(s, m, s', b, b')
    ensures Agrees(s', b'.ledger, b'.lost, At(m))
  {
    match m
    case Asked(r) => RequestAgrees(s, t, r, b, s', b');
    case Resumed(now) => RestartAgrees(s, t, now, b, s');
  }

  ghost predicate AgreesAt(ss: seq<State>, ms: seq<Move>, bs: seq<Books>, t: u64, n: nat)
    requires n <= |ms| && |ss| == |bs| == |ms| + 1
  {
    Agrees(ss[n], bs[n].ledger, bs[n].lost, Clock(t, ms, n))
  }

  lemma AgreesNext(ss: seq<State>, ms: seq<Move>, bs: seq<Books>, t: u64, n: nat)
    requires Kept(ss, ms, bs) && Timed(t, ms) && n < |ms| && SoundAt(ss, ms, t, n) && AgreesAt(ss, ms, bs, t, n)
    ensures AgreesAt(ss, ms, bs, t, n + 1)
  {
    LifeAt(ss, ms, t, n);
    assert BooksMoveAt(ss, ms, bs, n);
    MoveAgrees(ss[n], Clock(t, ms, n), ms[n], bs[n], ss[n + 1], bs[n + 1]);
  }

  lemma {:induction false} AgreesUpTo(ss: seq<State>, ms: seq<Move>, bs: seq<Books>, t: u64, n: nat)
    requires Kept(ss, ms, bs) && Timed(t, ms) && n <= |ms| && AlwaysSound(ss, ms, t) && AgreesAt(ss, ms, bs, t, 0)
    ensures AgreesAt(ss, ms, bs, t, n)
  {
    if n > 0 {
      AgreesUpTo(ss, ms, bs, t, n - 1);
      AgreesNext(ss, ms, bs, t, n - 1);
    }
  }

  /** Sound states and books that agree to start from, as an empty coordinator with empty books. */
  ghost predicate Opening(s: State, b: Books, t: u64) {
    Core(s, t) && Agrees(s, b.ledger, b.lost, t)
  }

  lemma EmptyOpening(policy: Policy, t: u64)
    ensures Opening(EmptyState(policy), Books(map[], {}), t)
  {
    EmptyIsFine(policy, t);
  }

  /** No laundering: at every point of every life, restarts included, every key that was not pushed out
      of a full penalty map has exactly the no-show history an unbounded ledger gives it. */
  lemma HistoryIsNeverLaundered(t: u64, ss: seq<State>, ms: seq<Move>, bs: seq<Books>, n: nat)
    requires Kept(ss, ms, bs) && Timed(t, ms) && n <= |ms| && Opening(ss[0], bs[0], t)
    ensures AgreesAt(ss, ms, bs, t, n)
  {
    LifeIsSound(ss, ms, t);
    AgreesUpTo(ss, ms, bs, t, n);
  }

  /** A history is pushed out only of a full penalty map. */
  lemma NothingLostUntilFull(t: u64, ss: seq<State>, ms: seq<Move>, bs: seq<Books>, n: nat)
    requires Kept(ss, ms, bs) && Timed(t, ms) && n < |ms| && Opening(ss[0], bs[0], t)
    ensures bs[n + 1].lost == bs[n].lost || |ss[n].penalties| == MAX_WORKERS
  {
    LifeIsSound(ss, ms, t);
    assert SoundAt(ss, ms, t, n) && BooksMoveAt(ss, ms, bs, n);
    LifeAt(ss, ms, t, n);
    if ms[n].Asked? {
      LostMeansFull(ss[n], Clock(t, ms, n), ms[n].request, bs[n]);
    }
  }

  lemma LostMeansFull(s: State, t: u64, r: Request, b: Books)
    requires Core(s, t) && t <= r.now
    ensures NextLost(b.lost, s, r, Mutate(s, r)) == b.lost || |s.penalties| == MAX_WORKERS
  {
    var lost := NextLost(b.lost, s, r, Mutate(s, r));
    if lost != b.lost {
      var k :| k in lost && k !in b.lost;
      LaterIsFine(s, t, r.now);
      RequestHistory(s, r, k);
    }
  }

  lemma EntryGrows(s: State, t: u64, m: Move, b: Books, s': State, b': Books, k: Addr)
    requires Core(s, t) && t <= At(m) && Agrees(s, b.ledger, b.lost, t)
    requires Moves(s, m, s') && BooksMove(s, m, s', b, b') && k !in b'.lost
    ensures k !in b.lost && Entry(b.ledger, k).cooldownUntil <= Entry(b'.ledger, k).cooldownUntil
  {
    if m.Asked? {
      LedgerStep(s, t, m.request, b, k);
    }
  }

  lemma EntryGrowsAt(ss: seq<State>, ms: seq<Move>, bs: seq<Books>, t: u64, n: nat, k: Addr)
    requires Kept(ss, ms, bs) && Timed(t, ms) && n < |ms| && SoundAt(ss, ms, t, n) && AgreesAt(ss, ms, bs, t, n)
    requires k !in bs[n + 1].lost
    ensures k !in bs[n].lost && Entry(bs[n].ledger, k).cooldownUntil <= Entry(bs[n + 1].ledger, k).cooldownUntil
  {
    LifeAt(ss, ms, t, n);
    assert BooksMoveAt(ss, ms, bs, n);
    EntryGrows(ss[n], Clock(t, ms, n), ms[n], bs[n], ss[n + 1], bs[n + 1], k);
  }

  lemma {:induction false} CooldownGrows(t: u64, ss: seq<State>, ms: seq<Move>, bs: seq<Books>, m: nat, n: nat, k: Addr)
    requires Kept(ss, ms, bs) && Timed(t, ms) && m <= n <= |ms| && AlwaysSound(ss, ms, t)
    requires (forall q | 0 <= q <= |ms| :: AgreesAt(ss, ms, bs, t, q)) && k !in bs[n].lost
    ensures k !in bs[m].lost
    ensures Entry(bs[m].ledger, k).cooldownUntil <= Entry(bs[n].ledger, k).cooldownUntil
    decreases n
  {
    if m < n {
      EntryGrowsAt(ss, ms, bs, t, n - 1, k);
      CooldownGrows(t, ss, ms, bs, m, n - 1, k);
    }
  }

  /** A worker's own cool-down never moves earlier. */
  lemma CooldownNeverDecreases(t: u64, ss: seq<State>, ms: seq<Move>, bs: seq<Books>, m: nat, n: nat, k: Addr)
    requires Kept(ss, ms, bs) && Timed(t, ms) && m <= n <= |ms| && Opening(ss[0], bs[0], t) && k !in bs[n].lost
    ensures k !in bs[m].lost
    ensures Entry(bs[m].ledger, k).cooldownUntil <= Entry(bs[n].ledger, k).cooldownUntil
  {
    LifeIsSound(ss, ms, t);
    forall q | 0 <= q <= |ms| ensures AgreesAt(ss, ms, bs, t, q) {
      AgreesUpTo(ss, ms, bs, t, q);
    }
    CooldownGrows(t, ss, ms, bs, m, n, k);
  }

  /** A worker whose cool-down lies ahead is refused, registered or not. */
  lemma CoolingIsRefused(s: State, w: Addr, now: u64)
    requires OneLease(s) && View(s, w).cooldownUntil > now && NoShowsOk(s, now)
    ensures Lease(s, w, now).1.Err?
  {
    if w in s.workers {
      var t := Touch(s, w, now);
      ExpireCharges(t, now, w);
      ViewCools(s, w, now);
      ChargeIsLater(View(t, w), now);
    }
  }

  lemma ChargedEntry(ss: seq<State>, ms: seq<Move>, bs: seq<Books>, m: nat, w: Addr)
    requires Kept(ss, ms, bs) && m < |ms| && ms[m].Asked? && Charged(ss[m], ms[m].request, w)
    ensures Entry(bs[m + 1].ledger, w) == Charge(Entry(bs[m].ledger, w), At(ms[m]))
  {
    assert BooksMoveAt(ss, ms, bs, m);
    NextLedgerEntry(bs[m].ledger, ss[m], ms[m].request, w);
  }

  lemma RefusedWhileCooling(ss: seq<State>, ms: seq<Move>, bs: seq<Books>, t: u64, q: nat, w: Addr)
    requires Kept(ss, ms, bs) && Timed(t, ms) && q < |ms| && SoundAt(ss, ms, t, q) && AgreesAt(ss, ms, bs, t, q)
    requires w !in bs[q].lost && Entry(bs[q].ledger, w).cooldownUntil > At(ms[q])
    ensures Lease(ss[q], w, At(ms[q])).1.Err?
  {
    assert Clock(t, ms, q) <= At(ms[q]);
    LaterIsFine(ss[q], Clock(t, ms, q), At(ms[q]));
    assert Same(View(ss[q], w), Entry(bs[q].ledger, w), Clock(t, ms, q));
    CoolingIsRefused(ss[q], w, At(ms[q]));
  }

  lemma RefusedOnLedger(t: u64, ss: seq<State>, ms: seq<Move>, bs: seq<Books>, q: nat, w: Addr)
    requires Kept(ss, ms, bs) && Timed(t, ms) && Opening(ss[0], bs[0], t) && q < |ms|
    requires w !in bs[q].lost && Entry(bs[q].ledger, w).cooldownUntil > At(ms[q])
    ensures Lease(ss[q], w, At(ms[q])).1.Err?
  {
    LifeIsSound(ss, ms, t);
    HistoryIsNeverLaundered(t, ss, ms, bs, q);
    assert SoundAt(ss, ms, t, q);
    RefusedWhileCooling(ss, ms, bs, t, q, w);
  }

  /** Back-off holds: a worker charged by move `m` for its n-th consecutive no-show is granted nothing
      for min(3600 * 2^(n-1), 7 days), through any evictions, new registrations and restarts. */
  lemma BackoffHolds(t: u64, ss: seq<State>, ms: seq<Move>, bs: seq<Books>, m: nat, q: nat, w: Addr)
    requires Kept(ss, ms, bs) && Timed(t, ms) && Opening(ss[0], bs[0], t)
    requires m < q < |ms| && w !in bs[q].lost && ms[m].Asked? && Charged(ss[m], ms[m].request, w)
    requires var n := Entry(bs[m + 1].ledger, w).noshows;
             n >= 1 ==> At(ms[q]) < SatAdd(At(ms[m]), Min(3_600 * Pow2(n - 1), 7 * 86_400))
    ensures Entry(bs[m + 1].ledger, w).noshows >= 1
    ensures Lease(ss[q], w, At(ms[q])).1.Err?
  {
    ChargedEntry(ss, ms, bs, m, w);
    NoshowBackoffClosedForm(Entry(bs[m + 1].ledger, w).noshows);
    CooldownNeverDecreases(t, ss, ms, bs, m + 1, q, w);
    RefusedOnLedger(t, ss, ms, bs, q, w);
  }
}
