/** `register_inner`: the order of its checks, what a refusal may change, and what draws on the budget
    for new identities. */
module RegisterInners {
  import opened Base
  import opened LeaseSpec
  import opened LeaseBooks
  import opened LeaseInvariants
  import opened RegistrationBudgets

  datatype RegFail = Replay | TooSoon(retryAfterSecs: u64) | Spent | Registry(error: RegisterError)

  /** A verified registration: who signed it and when, what it claims and where it came from. */
  datatype Form = Form(key: Addr, ts: u64, capability: Capability, source: Source)

  predicate Newcomer(s: State, key: Addr) {
    key !in s.workers && key !in s.policy.trusted
  }

  /** The earliest a known key may register again. */
  function RefreshAt(s: State, key: Addr, refreshSecs: u64): u64 {
    if key in s.workers then SatAdd(s.workers[key].lastRegistration, refreshSecs) else 0
  }

  ghost function RegisterInner(s: State, b: Budget, f: Form, refreshSecs: u64, now: u64, nowNanos: u64)
    : (State, Budget, Result<Capability, RegFail>)
  {
    if (f.key, f.ts) in s.recent then (s, b, Err(Replay))
    else if now < RefreshAt(s, f.key, refreshSecs) then (s, b, Err(TooSoon(SatSub(RefreshAt(s, f.key, refreshSecs), now))))
    else if Newcomer(s, f.key) && !AdmitsNew(s, f.key, f.source, now) then (s, b, Err(Registry(SourceFull)))
    else
      var b1 := if Newcomer(s, f.key) then Take(b, now).0 else b;
      if Newcomer(s, f.key) && !Take(b, now).1 then (s, b1, Err(Spent))
      else
        var (s1, granted) := Register(s, f.key, f.capability, f.source, now);
        match granted
        case Err(e) => (s1, b1, Err(Registry(e)))
        case Ok(c) => (NoteRegistration(s1, f.key, f.ts, nowNanos).0, b1, Ok(c))
  }

  method RunRegisterInner(book: LeaseBook, budget: RegistrationBudget, f: Form, refreshSecs: u64, now: u64, nowNanos: u64)
    returns (r: Result<Capability, RegFail>)
    modifies book, budget
    ensures (book.Value(), budget.Value(), r)
            == RegisterInner(old(book.Value()), old(budget.Value()), f, refreshSecs, now, nowNanos)
  {
    if (f.key, f.ts) in book.recent { return Err(Replay); }
    if f.key in book.workers {
      var again := SatAdd(book.workers[f.key].lastRegistration, refreshSecs);
      if now < again { return Err(TooSoon(SatSub(again, now))); }
    }
    if f.key !in book.workers && f.key !in book.policy.trusted {
      if !AdmitsNew(book.Value(), f.key, f.source, now) { return Err(Registry(SourceFull)); }
      var granted := budget.TryTake(now);
      if !granted { return Err(Spent); }
    }
    var granted := book.Register(f.key, f.capability, f.source, now);
    if granted.Err? { return Err(Registry(granted.error)); }
    var _ := book.NoteRegistration(f.key, f.ts, nowNanos);
    r := Ok(granted.value);
  }

  // ---- what a refusal changes ---------------------------------------------------------------

  /** Is the registry full of workers that may not be evicted? */
  ghost predicate NoRoom(s: State, now: u64) {
    |s.workers| >= MAX_WORKERS && Evictable(s, Holders(s, now)) == map[]
  }

  /** A reclaimed slot leaves room in the registry, so a refused registration evicts nobody. */
  lemma RefusedRegisterChangesNothing(s: State, key: Addr, c: Capability, source: Source, now: u64)
    requires |s.workers| <= MAX_WORKERS && Register(s, key, c, source, now).1.Err?
    ensures Register(s, key, c, source, now).0 == s.(dirty := true) && key !in s.workers
    ensures AdmitsNew(s, key, source, now) ==> NoRoom(s, now) && Register(s, key, c, source, now).1 == Err(RegistryFull)
  {
    var s0 := s.(dirty := true);
    assert Holders(s0, now) == Holders(s, now) && SlotsOf(s0, source) == SlotsOf(s, source);
    assert StaleSlots(s0, source, now) == StaleSlots(s, source, now);
    assert Evictable(s0, Holders(s, now)) == Evictable(s, Holders(s, now));
    if key !in s.policy.trusted && |SlotsOf(s0, source)| >= s.policy.maxWorkersPerSource && StaleSlots(s0, source, now) != map[] {
      var w := MinKey(StaleSlots(s0, source, now));
      ForgettingMakesRoom(s0, w, now);
    }
  }

  lemma ForgettingMakesRoom(s: State, w: Addr, now: u64)
    requires w in s.workers
    ensures |ForgetWorker(s, w, now).workers| == |s.workers| - 1
  {
    assert ForgetWorker(s, w, now).workers == s.workers - {w};
    assert (s.workers - {w}).Keys == s.workers.Keys - {w};
  }

  /** No refused request changes a record: at most it sets the flag. */
  lemma RefusalChangesNoRecord(s: State, b: Budget, f: Form, refreshSecs: u64, now: u64, nowNanos: u64)
    requires |s.workers| <= MAX_WORKERS
    ensures var (s', _, r) := RegisterInner(s, b, f, refreshSecs, now, nowNanos);
            r.Err? ==> s' == s.(dirty := s.dirty || r.error == Registry(RegistryFull))
  {
    if Register(s, f.key, f.capability, f.source, now).1.Err? {
      RefusedRegisterChangesNothing(s, f.key, f.capability, f.source, now);
    }
  }

  /** Does this registration pass every check of its own and meet a full registry? An unknown key, not a
      replay, vouched or with room at its source and a token in the budget. */
  ghost predicate MeetsAFullRegistry(s: State, b: Budget, f: Form, now: u64) {
    && (f.key, f.ts) !in s.recent && f.key !in s.workers && NoRoom(s, now)
    && (f.key in s.policy.trusted || (AdmitsNew(s, f.key, f.source, now) && Take(b, now).1))
  }

  /** A refusal leaves a clean state dirty, and so causes a save, if and only if it meets a full registry. */
  lemma RefusalSavesExactlyWhen(s: State, b: Budget, f: Form, refreshSecs: u64, now: u64, nowNanos: u64)
    requires |s.workers| <= MAX_WORKERS && !s.dirty
    ensures var (s', _, r) := RegisterInner(s, b, f, refreshSecs, now, nowNanos);
            r.Err? && s'.dirty <==> MeetsAFullRegistry(s, b, f, now)
  {
    RefusalChangesNoRecord(s, b, f, refreshSecs, now, nowNanos);
    if Register(s, f.key, f.capability, f.source, now).1.Err? {
      RefusedRegisterChangesNothing(s, f.key, f.capability, f.source, now);
    }
    if NoRoom(s, now) && f.key !in s.workers && AdmitsNew(s, f.key, f.source, now) {
      FullRegistryRefuses(s, f.key, f.capability, f.source, now);
    }
  }

  lemma FullRegistryRefuses(s: State, key: Addr, c: Capability, source: Source, now: u64)
    requires |s.workers| <= MAX_WORKERS && NoRoom(s, now) && key !in s.workers
    requires AdmitsNew(s, key, source, now)
    ensures Register(s, key, c, source, now).1.Err?
  {
    assert forall w | w in StaleSlots(s, source, now) :: w in Evictable(s, Holders(s, now));
    assert StaleSlots(s, source, now) == map[];
    var s0 := s.(dirty := true);
    assert Holders(s0, now) == Holders(s, now) && SlotsOf(s0, source) == SlotsOf(s, source);
    assert StaleSlots(s0, source, now) == StaleSlots(s, source, now);
    assert Evictable(s0, Holders(s, now)) == Evictable(s, Holders(s, now));
  }

  // ---- the one refusal that causes a save ---------------------------------------------------

  function Below(n: nat): set<nat> {
    if n == 0 then {} else Below(n - 1) + {n - 1}
  }

  lemma {:induction false} BelowIs(n: nat)
    ensures |Below(n)| == n && forall k: nat :: k in Below(n) <==> k < n
  {
    if n > 0 {
      BelowIs(n - 1);
    }
  }

  const VOUCHED_RECORD: Worker := Worker(Federated, 0, Source(0, 0), 0, 0, 0, 0, None)

  function JoinForm(k: Addr): Form {
    Form(k, 1, Federated, Source(0, 0))
  }

  /** The first `n` vouched keys have registered, one after the other. */
  function Joined(p: Policy, n: nat): State {
    EmptyState(p).(workers := map k | k in Below(n) :: VOUCHED_RECORD, recent := set k | k in Below(n) :: (k, 1))
  }

  /** A registration is accepted in `ss[k]`, and `ss[k + 1]` is what it leaves once saved. */
  ghost predicate JoinsAt(ss: seq<State>, k: nat)
    requires k + 1 < |ss|
  {
    var (s', _, r) := RegisterInner(ss[k], FULL, JoinForm(k), 60, 0, 1);
    r.Ok? && ss[k + 1] == TakeDirty(s')
  }

  lemma VouchedRegisters(p: Policy, n: nat)
    requires n < MAX_WORKERS && n in p.trusted
    ensures Register(Joined(p, n), n, Federated, Source(0, 0), 0)
         == (Joined(p, n).(workers := Joined(p, n + 1).workers, dirty := true), Ok(Federated))
  {
    BelowIs(n);
    var s := Joined(p, n);
    assert s.workers.Keys == Below(n);
    assert s.workers[n := VOUCHED_RECORD] == Joined(p, n + 1).workers;
    assert s.penalties - {n} == s.penalties;
  }

  lemma VouchedNoted(p: Policy, n: nat, s1: State)
    requires s1 == Joined(p, n).(workers := Joined(p, n + 1).workers, dirty := true)
    ensures TakeDirty(NoteRegistration(s1, n, 1, 1).0) == Joined(p, n + 1)
  {
    var s' := NoteRegistration(s1, n, 1, 1).0;
    assert s'.recent == Joined(p, n + 1).recent;
    assert TakeDirty(s').jobs == map[];
  }

  lemma VouchedJoins(p: Policy, n: nat, ss: seq<State>)
    requires n < MAX_WORKERS && n in p.trusted && n + 1 < |ss| && ss[n] == Joined(p, n) && ss[n + 1] == Joined(p, n + 1)
    ensures JoinsAt(ss, n)
  {
    BelowIs(n);
    assert n !in Joined(p, n).workers && (n, 1) !in Joined(p, n).recent;
    VouchedRegisters(p, n);
    var s1 := Joined(p, n).(workers := Joined(p, n + 1).workers, dirty := true);
    VouchedAccepted(Joined(p, n), n, s1);
    VouchedNoted(p, n, s1);
  }

  lemma VouchedAccepted(s: State, k: Addr, s1: State)
    requires (k, 1) !in s.recent && k !in s.workers && k in s.policy.trusted
    requires Register(s, k, Federated, Source(0, 0), 0) == (s1, Ok(Federated))
    ensures RegisterInner(s, FULL, JoinForm(k), 60, 0, 1) == (NoteRegistration(s1, k, 1, 1).0, FULL, Ok(Federated))
  {
  }

  lemma VouchedOnlyHasNoRoom(p: Policy, n: nat, s: State)
    requires n == MAX_WORKERS && p.trusted == Below(n) && p.maxWorkersPerSource == 8 && s == Joined(p, n)
    ensures NoRoom(s, 1_000) && n !in s.workers && AdmitsNew(s, n, Source(1, 1), 1_000)
  {
    BelowIs(n);
    assert s.workers.Keys == Below(n);
    assert SlotsOf(s, Source(1, 1)) == {};
    assert Evictable(s, Holders(s, 1_000)) == map[];
  }

  lemma NoRoomRefuses(s: State, key: Addr, ts: u64, c: Capability, source: Source, now: u64, nowNanos: u64)
    requires |s.workers| <= MAX_WORKERS && !s.dirty && key !in s.workers && NoRoom(s, now)
    requires (key, ts) !in s.recent && AdmitsNew(s, key, source, now)
    ensures var (s', _, r) := RegisterInner(s, FULL, Form(key, ts, c, source), 60, now, nowNanos);
            r == Err(Registry(RegistryFull)) && s' == s.(dirty := true)
  {
    RefusalSavesExactlyWhen(s, FULL, Form(key, ts, c, source), 60, now, nowNanos);
    RefusalChangesNoRecord(s, FULL, Form(key, ts, c, source), 60, now, nowNanos);
  }

  /** So the claim that a refused registration never causes a save does not hold of the code: as many vouched
      keys register as the registry holds, each registration saved, and the next newcomer is refused and
      leaves the clean state dirty. */
  lemma RefusalCanCauseASave(n: nat) returns (ss: seq<State>)
    requires n == MAX_WORKERS
    ensures |ss| == n + 1 && ss[0] == EmptyState(Policy(Below(n), Federated, 8, 900, 2))
    ensures forall k | 0 <= k < n :: JoinsAt(ss, k)
    ensures var (s', _, r) := RegisterInner(ss[n], FULL, Form(n, 1_000_000_000_000, Probe, Source(1, 1)), 60, 1_000, 1_000_000_000_000);
            !ss[n].dirty && r == Err(Registry(RegistryFull)) && s' == ss[n].(dirty := true)
  {
    var p := Policy(Below(n), Federated, 8, 900, 2);
    ss := seq(n + 1, k requires 0 <= k <= n => Joined(p, k));
    NobodyJoined(p);
    forall k | 0 <= k < n ensures JoinsAt(ss, k) {
      BelowIs(n);
      VouchedJoins(p, k, ss);
    }
    VouchedOnlyRefuses(p, n, ss[n]);
  }

  lemma NobodyJoined(p: Policy)
    ensures Joined(p, 0) == EmptyState(p)
  {
    assert Joined(p, 0).workers == map[] && Joined(p, 0).recent == {};
  }

  lemma VouchedOnlyRefuses(p: Policy, n: nat, s: State)
    requires n == MAX_WORKERS && p.trusted == Below(n) && p.maxWorkersPerSource == 8 && s == Joined(p, n)
    ensures var (s', _, r) := RegisterInner(s, FULL, Form(n, 1_000_000_000_000, Probe, Source(1, 1)), 60, 1_000, 1_000_000_000_000);
            r == Err(Registry(RegistryFull)) && s' == s.(dirty := true)
  {
    BelowIs(n);
    assert s.workers.Keys == Below(n);
    VouchedOnlyHasNoRoom(p, n, s);
    NoRoomRefuses(s, n, 1_000_000_000_000, Probe, Source(1, 1), 1_000, 1_000_000_000_000);
  }

  // ---- what draws on the budget -------------------------------------------------------------

  /** The budget is drawn on exactly by newcomers that are no replay and whose source has room: known
      and vouched keys are free, and a full source cannot drain it. */
  lemma BudgetDrawnOnlyByAdmissibleNewcomers(s: State, b: Budget, f: Form, refreshSecs: u64, now: u64, nowNanos: u64)
    ensures var (_, b', r) := RegisterInner(s, b, f, refreshSecs, now, nowNanos);
            var draws := (f.key, f.ts) !in s.recent && Newcomer(s, f.key) && AdmitsNew(s, f.key, f.source, now);
            && b' == (if draws then Take(b, now).0 else b)
            && (r == Err(Spent) <==> draws && !Take(b, now).1)
  {
  }

  /** An accepted registration grants the effective capability, is remembered against replay, and is
      known from then on. */
  lemma AcceptedIsKnown(s: State, b: Budget, f: Form, refreshSecs: u64, now: u64, nowNanos: u64)
    ensures var (s', _, r) := RegisterInner(s, b, f, refreshSecs, now, nowNanos);
            r.Ok? ==>
              && f.key in s'.workers && s'.workers[f.key].lastRegistration == now && (f.key, f.ts) in s'.recent
              && (f.key, f.ts) !in s.recent && r.value == EffectiveCapability(s.policy, f.key, f.capability)
  {
  }
}
