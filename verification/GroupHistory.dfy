/** What a network does is remembered of the network, whatever keys it uses: a source group that let a job
    lapse is not offered it again, and every no-show of its keys adds to one cool-down of the group. */
module GroupHistory {
  import opened Base
  import opened LeaseSpec
  import opened LeaseRuns
  import opened LeaseInvariants
  import opened LeaseTheorems
  import opened LeaseLives
  import opened BoundedWaiting

  /** `w` is registered from group `g` and not vouched for. */
  predicate Of(s: State, w: Addr, g: Group) {
    w in s.workers && w !in s.policy.trusted && SourceGroup(s.workers[w].source) == g
  }

  /** A request that finds job `i` lapsed in the hands of an unvouched worker of group `g`. */
  predicate FindsLapseOf(s: State, r: Request, i: JobId, g: Group) {
    FindsLapsed(s, r, i) && Of(s, s.jobs[i].status.worker, g)
  }

  // ---- a job it let lapse ---------------------------------------------------------------------

  predicate FailedBy(s: State, i: JobId, g: Group) {
    i in s.jobs && g in s.jobs[i].failedBySources
  }

  lemma ExpiryKeepsGroup(s: State, now: u64, w: Addr, g: Group)
    requires Of(s, w, g)
    ensures Of(ExpireLeases(s, now), w, g)
  {
  }

  lemma ExpiryFails(s: State, now: u64, i: JobId, g: Group)
    requires i in s.jobs && (FailedBy(s, i, g) || (Lapsed(s.jobs[i].status, now) && Of(s, s.jobs[i].status.worker, g)))
    ensures FailedBy(ExpireLeases(s, now), i, g)
  {
  }

  lemma AssignSpares(s: State, w: Addr, now: u64, i: JobId, g: Group)
    requires Of(s, w, g) && FailedBy(s, i, g)
    ensures Assign(s, w, now).1 != Ok(i)
  {
    BestOfEligible(s, w, now);
  }

  /** A poll from the group is not given the job it let lapse, not even by the poll that finds it out. */
  lemma PollSpares(s: State, w: Addr, now: u64, i: JobId, g: Group)
    requires Of(s, w, g)
    requires i in s.jobs && (FailedBy(s, i, g) || (Lapsed(s.jobs[i].status, now) && Of(s, s.jobs[i].status.worker, g)))
    ensures Lease(s, w, now).1 != Ok(i)
  {
    var t := Touch(s, w, now);
    ExpiryKeepsGroup(t, now, w, g);
    ExpiryFails(t, now, i, g);
    AssignSpares(ExpireLeases(t, now), w, now, i, g);
  }

  lemma PollFails(s: State, w: Addr, now: u64, i: JobId, g: Group)
    requires w in s.workers && i in s.jobs && Lapsed(s.jobs[i].status, now) && Of(s, s.jobs[i].status.worker, g)
    ensures FailedBy(Lease(s, w, now).0, i, g)
  {
    var t := Touch(s, w, now);
    ExpiryFails(t, now, i, g);
    BestOfEligible(ExpireLeases(t, now), w, now);
  }

  lemma LapseFails(s: State, r: Request, i: JobId, g: Group)
    requires FindsLapseOf(s, r, i, g)
    ensures FailedBy(Mutate(s, r), i, g)
  {
    MutateIsApply(s, r);
    if r.step.PollStep? {
      PollFails(s, r.step.worker, r.now, i, g);
    } else {
      ExpiryFails(s, r.now, i, g);
    }
  }

  lemma MoveKeepsFailed(s: State, m: Move, s': State, i: JobId, g: Group)
    requires Moves(s, m, s') && FailedBy(s, i, g)
    ensures FailedBy(s', i, g)
  {
    match m
    case Asked(r) => RequestOnJob(s, r, i);
    case Resumed(now) => assert JobResumed(s.jobs[i], s'.jobs[i], s.policy.leaseWindow, now);
  }

  lemma FailedAt(ss: seq<State>, ms: seq<Move>, t: u64, k: nat, i: JobId, g: Group)
    requires IsLife(ss, ms) && Timed(t, ms) && k < |ms|
    requires FailedBy(ss[k], i, g) || (ms[k].Asked? && FindsLapseOf(ss[k], ms[k].request, i, g))
    ensures FailedBy(ss[k + 1], i, g)
  {
    LifeAt(ss, ms, t, k);
    if FailedBy(ss[k], i, g) {
      MoveKeepsFailed(ss[k], ms[k], ss[k + 1], i, g);
    } else {
      LapseFails(ss[k], ms[k].request, i, g);
    }
  }

  lemma {:induction false} FailedFrom(ss: seq<State>, ms: seq<Move>, t: u64, m: nat, n: nat, i: JobId, g: Group)
    requires IsLife(ss, ms) && Timed(t, ms) && m < n <= |ms| && ms[m].Asked? && FindsLapseOf(ss[m], ms[m].request, i, g)
    ensures FailedBy(ss[n], i, g)
    decreases n
  {
    if m < n - 1 {
      FailedFrom(ss, ms, t, m, n - 1, i, g);
    }
    FailedAt(ss, ms, t, n - 1, i, g);
  }

  /** Once a job has lapsed in the hands of an unvouched worker of a network, no unvouched key registered from
      that network is ever given it: not by the request that finds the lapse, nor by any later one, whatever
      keys are used and through restarts. */
  lemma NetworkNeverOfferedAgain(ss: seq<State>, ms: seq<Move>, t: u64, m: nat, n: nat, i: JobId, g: Group, w: Addr)
    requires IsLife(ss, ms) && Timed(t, ms) && m <= n < |ms|
    requires ms[m].Asked? && FindsLapseOf(ss[m], ms[m].request, i, g)
    requires ms[n].Asked? && ms[n].request.step == PollStep(w) && Of(ss[n], w, g)
    ensures Lease(ss[n], w, At(ms[n])).1 != Ok(i)
  {
    if m < n {
      FailedFrom(ss, ms, t, m, n, i, g);
    }
    PollSpares(ss[n], w, At(ms[n]), i, g);
  }

  // ---- one cool-down of the group ---------------------------------------------------------------

  /** What is remembered of a group: its consecutive no-shows, and until when it cools down. */
  datatype Standing = Standing(noshows: u32, cooldownUntil: u64)

  function View(s: State, g: Group): Standing {
    if g in s.sources then Standing(s.sources[g].noshows, s.sources[g].cooldownUntil) else Standing(0, 0)
  }

  /** The jobs a request finds lapsed in the hands of the group's unvouched workers. */
  function LapsesOf(s: State, r: Request, g: Group): set<JobId> {
    set i | i in s.jobs && FindsLapseOf(s, r, i, g)
  }

  /** A vouched delivery from the group, the only thing that clears its count. */
  predicate Cleared(s: State, r: Request, g: Group) {
    && r.step.SubmitStep? && r.step.worker in s.workers && r.step.worker in s.policy.trusted
    && SourceGroup(s.workers[r.step.worker].source) == g
    && Submit(s, r.step.worker, r.step.job, r.step.result, r.now).1.Ok?
  }

  /** `n` more consecutive no-shows at `now`: from then on the group cools down for an hour, doubled for each
      one before, seven days at most. */
  function Charged(p: Standing, n: nat, now: u64): Standing {
    var total := SatAdd32(p.noshows, n);
    Standing(total, SatAdd(now, if total == 0 then 3_600 else Min(3_600 * Pow2(total - 1), 7 * 86_400)))
  }

  function Expected(p: Standing, n: nat, cleared: bool, now: u64): Standing {
    if n > 0 then Charged(p, n, now) else if cleared then p.(noshows := 0) else p
  }

  type Ledger = map<Group, Standing>

  function Entry(ledger: Ledger, g: Group): Standing {
    if g in ledger then ledger[g] else Standing(0, 0)
  }

  /** The groups a request may concern. */
  function Concerned(s: State): set<Group> {
    set w | w in s.workers :: SourceGroup(s.workers[w].source)
  }

  /** The unbounded ledger after a request. */
  function NextLedger(ledger: Ledger, s: State, r: Request): Ledger {
    map g | g in ledger.Keys + Concerned(s) ::
      Expected(Entry(ledger, g), |LapsesOf(s, r, g)|, Cleared(s, r, g), r.now)
  }

  /** Was the group's record pushed out of the bounded map while these charges were made? */
  ghost predicate PushedOut(sources: map<Group, SourceRecord>, gs: seq<Group>, now: u64, g: Group)
    decreases |gs|
  {
    gs != [] &&
    var next := ChargeSource(sources, gs[0], now);
    (g in sources && g !in next) || PushedOut(next, gs[1..], now, g)
  }

  predicate Expires(s: State, r: Request) {
    r.step.ExpireStep? || (r.step.PollStep? && r.step.worker in s.workers)
  }

  ghost predicate Lost(s: State, r: Request, g: Group) {
    Expires(s, r) && PushedOut(s.sources, LapsedGroups(s, s.jobs.Keys, r.now), r.now, g)
  }

  ghost function LostBy(s: State, r: Request): iset<Group> {
    iset g | Lost(s, r, g)
  }

  function Occurrences(gs: seq<Group>, g: Group): nat {
    if gs == [] then 0 else (if gs[0] == g then 1 else 0) + Occurrences(gs[1..], g)
  }

  lemma OccurrencesIn(g1: seq<Group>, gs: seq<Group>, g: Group)
    requires |g1| <= 1
    ensures Occurrences(g1 + gs, g) == Occurrences(gs, g) + (if g1 == [g] then 1 else 0)
  {
    if g1 == [] {
      assert g1 + gs == gs;
    } else {
      assert (g1 + gs)[1..] == gs;
    }
  }

  /** The lapses of `g` among the jobs in `ids`. */
  function LapsesAmong(s: State, ids: set<JobId>, g: Group, now: u64): set<JobId> {
    set i | i in ids && i in s.jobs && Lapsed(s.jobs[i].status, now) && Of(s, s.jobs[i].status.worker, g)
  }

  lemma {:induction false} ChargedAsOften(s: State, ids: set<JobId>, g: Group, now: u64)
    ensures Occurrences(LapsedGroups(s, ids, now), g) == |LapsesAmong(s, ids, g, now)|
    decreases ids
  {
    if ids != {} {
      var i := Least(ids);
      ChargedAsOften(s, ids - {i}, g, now);
      OccurrencesIn(ChargedGroup(s, i, now), LapsedGroups(s, ids - {i}, now), g);
      OneLapseMore(s, ids, i, g, now);
    } else {
      assert LapsesAmong(s, ids, g, now) == {};
    }
  }

  lemma OneLapseMore(s: State, ids: set<JobId>, i: JobId, g: Group, now: u64)
    requires i in ids
    ensures |LapsesAmong(s, ids, g, now)|
         == |LapsesAmong(s, ids - {i}, g, now)| + (if ChargedGroup(s, i, now) == [g] then 1 else 0)
  {
    var before, after := LapsesAmong(s, ids - {i}, g, now), LapsesAmong(s, ids, g, now);
    if ChargedGroup(s, i, now) == [g] {
      assert after == before + {i};
    } else {
      assert after == before;
    }
  }

  // ---- the bounded map against the ledger -------------------------------------------------------

  function ViewIn(sources: map<Group, SourceRecord>, g: Group): Standing {
    if g in sources then Standing(sources[g].noshows, sources[g].cooldownUntil) else Standing(0, 0)
  }

  lemma OneCharge(sources: map<Group, SourceRecord>, g1: Group, now: u64, g: Group)
    requires !(g in sources && g !in ChargeSource(sources, g1, now))
    ensures ViewIn(ChargeSource(sources, g1, now), g)
         == if g == g1 then Charged(ViewIn(sources, g), 1, now) else ViewIn(sources, g)
  {
    if g == g1 {
      NoshowBackoffClosedForm(SatAdd32(ViewIn(sources, g).noshows, 1));
    }
  }

  lemma ChargedTwice(p: Standing, n: nat, now: u64)
    requires n > 0
    ensures Charged(Charged(p, 1, now), n, now) == Charged(p, n + 1, now)
  {
  }

  lemma {:induction false} ManyCharges(sources: map<Group, SourceRecord>, gs: seq<Group>, now: u64, g: Group)
    requires !PushedOut(sources, gs, now, g)
    ensures ViewIn(ChargeSources(sources, gs, now), g)
         == if Occurrences(gs, g) == 0 then ViewIn(sources, g) else Charged(ViewIn(sources, g), Occurrences(gs, g), now)
    decreases |gs|
  {
    if gs != [] {
      var next := ChargeSource(sources, gs[0], now);
      OneCharge(sources, gs[0], now, g);
      ManyCharges(next, gs[1..], now, g);
      if gs[0] == g && Occurrences(gs[1..], g) > 0 {
        ChargedTwice(ViewIn(sources, g), Occurrences(gs[1..], g), now);
      }
    }
  }

  lemma ExpiryCharges(s: State, r: Request, g: Group)
    requires Expires(s, r) && !PushedOut(s.sources, LapsedGroups(s, s.jobs.Keys, r.now), r.now, g)
    ensures View(ExpireLeases(s, r.now), g) == Expected(View(s, g), |LapsesOf(s, r, g)|, false, r.now)
  {
    assert LapsesAmong(s, s.jobs.Keys, g, r.now) == LapsesOf(s, r, g);
    ChargedAsOften(s, s.jobs.Keys, g, r.now);
    ManyCharges(s.sources, LapsedGroups(s, s.jobs.Keys, r.now), r.now, g);
  }

  lemma {:induction false} TouchedGroups(s: State, t: State, ids: set<JobId>, now: u64)
    requires t.jobs == s.jobs && t.policy == s.policy && t.workers.Keys == s.workers.Keys
    requires forall w | w in s.workers :: t.workers[w].source == s.workers[w].source
    ensures LapsedGroups(t, ids, now) == LapsedGroups(s, ids, now)
    decreases ids
  {
    if ids != {} {
      TouchedGroups(s, t, ids - {Least(ids)}, now);
    }
  }

  lemma PollCharges(s: State, r: Request, g: Group)
    requires r.step.PollStep? && r.step.worker in s.workers && !Lost(s, r, g)
    ensures View(Lease(s, r.step.worker, r.now).0, g) == Expected(View(s, g), |LapsesOf(s, r, g)|, false, r.now)
    ensures ViewIn(ExpireLeases(Touch(s, r.step.worker, r.now), r.now).sources, g) == View(Lease(s, r.step.worker, r.now).0, g)
  {
    var w := r.step.worker;
    var t := Touch(s, w, r.now);
    TouchedGroups(s, t, s.jobs.Keys, r.now);
    assert LapsesOf(t, r, g) == LapsesOf(s, r, g);
    ExpiryCharges(t, r, g);
    AssignLeavesBooks(ExpireLeases(t, r.now), w, r.now);
  }

  lemma SubmitClears(s: State, w: Addr, i: JobId, result: string, now: u64, r: Request, g: Group)
    requires r.step == SubmitStep(w, i, result) && r.now == now
    ensures View(Submit(s, w, i, result, now).0, g) == Expected(View(s, g), 0, Cleared(s, r, g), now)
  {
  }

  lemma RegisterLeavesSources(s: State, id: Addr, c: Capability, source: Source, now: u64)
    ensures Register(s, id, c, source, now).0.sources == s.sources
  {
    if id !in s.workers {
      var s0 := s.(dirty := true);
      RoomsLeaveSources(s0, source, Holders(s, now), now);
      var room := if id in s.policy.trusted then Ok(s0) else MakeRoomForSource(s0, source, now);
      if room.Ok? {
        RoomsLeaveSources(room.value, source, Holders(s, now), now);
      }
    }
  }

  lemma ForgetLeavesSources(s: State, x: Addr, now: u64)
    ensures ForgetWorker(s, x, now).sources == s.sources
  {
  }

  lemma RoomsLeaveSources(s: State, source: Source, holders: set<Addr>, now: u64)
    ensures var r := MakeRoomForSource(s, source, now); r.Ok? ==> r.value.sources == s.sources
    ensures var r := MakeRoomInRegistry(s, holders, now); r.Ok? ==> r.value.sources == s.sources
  {
    if StaleSlots(s, source, now) != map[] {
      ForgetLeavesSources(s, MinKey(StaleSlots(s, source, now)), now);
    }
    if Evictable(s, holders) != map[] {
      ForgetLeavesSources(s, MinKey(Evictable(s, holders)), now);
    }
  }

  lemma ApplyCharges(s: State, r: Request, g: Group)
    requires !Lost(s, r, g)
    ensures View(Apply(s, r.step, r.now), g) == Expected(View(s, g), |LapsesOf(s, r, g)|, Cleared(s, r, g), r.now)
  {
    if !Expires(s, r) {
      assert LapsesOf(s, r, g) == {};
    }
    match r.step
    case PollStep(w) => if w in s.workers { PollCharges(s, r, g); }
    case ExpireStep => ExpiryCharges(s, r, g);
    case SubmitStep(w, i, result) => SubmitClears(s, w, i, result, r.now, r, g);
    case RegisterStep(key, c, source) => RegisterLeavesSources(s, key, c, source, r.now);
    case HeartbeatStep(_, _) =>
    case AddJobStep(_, _) =>
    case NoteStep(_, _, _) =>
  }

  lemma NotConcerned(s: State, r: Request, g: Group)
    requires g !in Concerned(s)
    ensures LapsesOf(s, r, g) == {} && !Cleared(s, r, g)
  {
  }

  lemma NextEntry(ledger: Ledger, s: State, r: Request, g: Group)
    ensures Entry(NextLedger(ledger, s, r), g)
         == Expected(Entry(ledger, g), |LapsesOf(s, r, g)|, Cleared(s, r, g), r.now)
  {
    if g !in Concerned(s) {
      NotConcerned(s, r, g);
    }
  }

  /** The ledger, and the groups the bounded map has pushed out so far. */
  datatype Books = Books(ledger: Ledger, lost: iset<Group>)

  ghost predicate BooksMove(s: State, m: Move, b: Books, b': Books) {
    match m
    case Asked(r) => b' == Books(NextLedger(b.ledger, s, r), b.lost + LostBy(s, r))
    case Resumed(_) => b' == b
  }

  ghost predicate Agrees(s: State, b: Books) {
    forall g :: g !in b.lost ==> View(s, g) == Entry(b.ledger, g)
  }

  lemma MoveAgrees(s: State, m: Move, s': State, b: Books, b': Books)
    requires Moves(s, m, s') && BooksMove(s, m, b, b') && Agrees(s, b)
    ensures Agrees(s', b')
  {
    if m.Asked? {
      MutateIsApply(s, m.request);
      forall g | g !in b'.lost ensures View(s', g) == Entry(b'.ledger, g) {
        ApplyCharges(s, m.request, g);
        NextEntry(b.ledger, s, m.request, g);
      }
    }
  }

  /** A life with the books of its groups. */
  ghost predicate Kept(ss: seq<State>, ms: seq<Move>, bs: seq<Books>) {
    IsLife(ss, ms) && |bs| == |ss| && Agrees(ss[0], bs[0]) && forall k | 0 <= k < |ms| :: BooksMoveAt(ss, ms, bs, k)
  }

  ghost predicate BooksMoveAt(ss: seq<State>, ms: seq<Move>, bs: seq<Books>, k: nat)
    requires k < |ms| && |ss| == |bs| == |ms| + 1
  {
    BooksMove(ss[k], ms[k], bs[k], bs[k + 1])
  }

  ghost function BooksAfter(ss: seq<State>, ms: seq<Move>, n: nat): Books
    requires n <= |ms| && |ss| == |ms| + 1
  {
    if n == 0 then Books(map[], iset{})
    else
      var b := BooksAfter(ss, ms, n - 1);
      match ms[n - 1]
      case Asked(r) => Books(NextLedger(b.ledger, ss[n - 1], r), b.lost + LostBy(ss[n - 1], r))
      case Resumed(_) => b
  }

  /** Every life from an empty coordinator has such books. */
  lemma BooksAlong(ss: seq<State>, ms: seq<Move>, policy: Policy) returns (bs: seq<Books>)
    requires IsLife(ss, ms) && ss[0] == EmptyState(policy)
    ensures Kept(ss, ms, bs) && bs[0] == Books(map[], iset{})
  {
    bs := seq(|ss|, n requires 0 <= n <= |ms| => BooksAfter(ss, ms, n));
    forall k | 0 <= k < |ms| ensures BooksMoveAt(ss, ms, bs, k) {
      assert BooksMove(ss[k], ms[k], BooksAfter(ss, ms, k), BooksAfter(ss, ms, k + 1));
    }
  }

  /** At every point of every life, restarts included, every group that was not pushed out of a full map has
      exactly the standing an unbounded ledger gives it, whatever keys came and went. */
  lemma {:induction false} GroupsAreNeverLaundered(ss: seq<State>, ms: seq<Move>, bs: seq<Books>, n: nat)
    requires Kept(ss, ms, bs) && n <= |ms|
    ensures Agrees(ss[n], bs[n])
  {
    if n > 0 {
      GroupsAreNeverLaundered(ss, ms, bs, n - 1);
      assert MovesAt(ss, ms, n - 1) && BooksMoveAt(ss, ms, bs, n - 1);
      MoveAgrees(ss[n - 1], ms[n - 1], ss[n], bs[n - 1], bs[n]);
    }
  }

  // ---- what it costs ----------------------------------------------------------------------------

  /** A poll from a group that is cooling down, or that this very poll finds a lapse of, is refused. */
  lemma CoolingGroupIsRefused(s: State, r: Request, w: Addr, g: Group)
    requires r.step == PollStep(w) && Of(s, w, g) && !Lost(s, r, g)
    requires Expected(View(s, g), |LapsesOf(s, r, g)|, false, r.now).cooldownUntil > r.now
    ensures Lease(s, w, r.now).1.Err?
  {
    PollCharges(s, r, g);
    var t := Touch(s, w, r.now);
    ExpiryKeepsGroup(t, r.now, w, g);
    CoolingGroupMayNotLease(ExpireLeases(t, r.now), w, r.now, g);
  }

  lemma CoolingGroupMayNotLease(s: State, w: Addr, now: u64, g: Group)
    requires Of(s, w, g) && ViewIn(s.sources, g).cooldownUntil > now
    ensures Assign(s, w, now).1.Err?
  {
  }

  lemma LostStays(ss: seq<State>, ms: seq<Move>, bs: seq<Books>, k: nat, g: Group)
    requires Kept(ss, ms, bs) && k < |ms| && g !in bs[k + 1].lost
    ensures g !in bs[k].lost && (ms[k].Asked? ==> !Lost(ss[k], ms[k].request, g))
  {
    assert BooksMoveAt(ss, ms, bs, k);
  }

  lemma EntryAt(ss: seq<State>, ms: seq<Move>, bs: seq<Books>, k: nat, g: Group)
    requires Kept(ss, ms, bs) && k < |ms|
    ensures Entry(bs[k + 1].ledger, g)
         == if ms[k].Asked? then Expected(Entry(bs[k].ledger, g), |LapsesOf(ss[k], ms[k].request, g)|,
                                          Cleared(ss[k], ms[k].request, g), At(ms[k]))
            else Entry(bs[k].ledger, g)
  {
    assert BooksMoveAt(ss, ms, bs, k);
    if ms[k].Asked? {
      NextEntry(bs[k].ledger, ss[k], ms[k].request, g);
    }
  }

  lemma AnHourAtLeast(p: Standing, n: nat, now: u64)
    requires n > 0
    ensures Charged(p, n, now).cooldownUntil >= SatAdd(now, 3_600)
  {
    var total := SatAdd32(p.noshows, n);
    Pow2Grows(0, total - 1);
  }

  /** Does move `k` find a lapse of the group? */
  predicate LapsesAt(ss: seq<State>, ms: seq<Move>, k: nat, g: Group)
    requires k < |ms| && |ss| == |ms| + 1
  {
    ms[k].Asked? && LapsesOf(ss[k], ms[k].request, g) != {}
  }

  /** From a charge on, through later charges and deliveries, the cool-down lasts an hour at least. */
  lemma {:induction false} HourStands(ss: seq<State>, ms: seq<Move>, bs: seq<Books>, t: u64, m: nat, n: nat, g: Group)
    requires Kept(ss, ms, bs) && Timed(t, ms) && m < n <= |ms| && LapsesAt(ss, ms, m, g)
    ensures Entry(bs[n].ledger, g).cooldownUntil >= SatAdd(At(ms[m]), 3_600)
    decreases n
  {
    EntryAt(ss, ms, bs, n - 1, g);
    if LapsesAt(ss, ms, n - 1, g) {
      AnHourAtLeast(Entry(bs[n - 1].ledger, g), |LapsesOf(ss[n - 1], ms[n - 1].request, g)|, At(ms[n - 1]));
    } else {
      HourStands(ss, ms, bs, t, m, n - 1, g);
    }
  }

  lemma RefusedAt(ss: seq<State>, ms: seq<Move>, bs: seq<Books>, q: nat, w: Addr, g: Group)
    requires Kept(ss, ms, bs) && q < |ms| && g !in bs[q + 1].lost
    requires ms[q].Asked? && ms[q].request.step == PollStep(w) && Of(ss[q], w, g)
    requires Entry(bs[q].ledger, g).cooldownUntil > At(ms[q]) || (LapsesAt(ss, ms, q, g) && At(ms[q]) < MAX64)
    ensures Lease(ss[q], w, At(ms[q])).1.Err?
  {
    LostStays(ss, ms, bs, q, g);
    GroupsAreNeverLaundered(ss, ms, bs, q);
    var r := ms[q].request;
    if LapsesAt(ss, ms, q, g) {
      AnHourAtLeast(View(ss[q], g), |LapsesOf(ss[q], r, g)|, r.now);
    }
    CoolingGroupIsRefused(ss[q], r, w, g);
  }

  /** A network pays for a lapse whatever keys it uses: from the request that finds a lapse of one of its
      unvouched workers, every poll by any of them is refused for an hour at least, that request included,
      unless the group is pushed out of a full map meanwhile. */
  lemma GroupIsRefusedForAnHour(ss: seq<State>, ms: seq<Move>, bs: seq<Books>, t: u64, m: nat, q: nat, w: Addr, g: Group)
    requires Kept(ss, ms, bs) && Timed(t, ms) && m <= q < |ms| && g !in bs[q + 1].lost && LapsesAt(ss, ms, m, g)
    requires ms[q].Asked? && ms[q].request.step == PollStep(w) && Of(ss[q], w, g)
    requires At(ms[q]) < SatAdd(At(ms[m]), 3_600)
    ensures Lease(ss[q], w, At(ms[q])).1.Err?
  {
    if m < q {
      HourStands(ss, ms, bs, t, m, q, g);
    }
    RefusedAt(ss, ms, bs, q, w, g);
  }

  /** Until the next charge a cool-down stays as it was set. */
  lemma {:induction false} CooldownStands(ss: seq<State>, ms: seq<Move>, bs: seq<Books>, m: nat, n: nat, g: Group)
    requires Kept(ss, ms, bs) && m <= n <= |ms| && forall k | m <= k < n :: !LapsesAt(ss, ms, k, g)
    ensures Entry(bs[n].ledger, g).cooldownUntil == Entry(bs[m].ledger, g).cooldownUntil
    decreases n
  {
    if m < n {
      assert !LapsesAt(ss, ms, n - 1, g);
      EntryAt(ss, ms, bs, n - 1, g);
      CooldownStands(ss, ms, bs, m, n - 1, g);
    }
  }

  /** The group's back-off: with the charge that brings its consecutive no-shows to n, every poll by any of its
      unvouched workers is refused for min(3600 * 2^(n-1), 7 days) or until the next charge. */
  lemma GroupBackoffHolds(ss: seq<State>, ms: seq<Move>, bs: seq<Books>, t: u64, m: nat, q: nat, w: Addr, g: Group)
    requires Kept(ss, ms, bs) && Timed(t, ms) && m < q < |ms| && g !in bs[q + 1].lost && LapsesAt(ss, ms, m, g)
    requires forall k | m < k < q :: !LapsesAt(ss, ms, k, g)
    requires ms[q].Asked? && ms[q].request.step == PollStep(w) && Of(ss[q], w, g)
    requires var n := SatAdd32(Entry(bs[m].ledger, g).noshows, |LapsesOf(ss[m], ms[m].request, g)|);
             n >= 1 ==> At(ms[q]) < SatAdd(At(ms[m]), Min(3_600 * Pow2(n - 1), 7 * 86_400))
    ensures Entry(bs[m + 1].ledger, g).noshows == SatAdd32(Entry(bs[m].ledger, g).noshows, |LapsesOf(ss[m], ms[m].request, g)|) >= 1
    ensures Lease(ss[q], w, At(ms[q])).1.Err?
  {
    EntryAt(ss, ms, bs, m, g);
    CooldownStands(ss, ms, bs, m + 1, q, g);
    RefusedAt(ss, ms, bs, q, w, g);
  }

  // ---- what a full map gives up -----------------------------------------------------------------

  /** A charge pushes a record out only of a full map: not one still cooling down while any is not, and of
      those the one charged longest ago. */
  lemma PushesOutTheLeast(sources: map<Group, SourceRecord>, g1: Group, now: u64, g: Group)
    requires g in sources && g !in ChargeSource(sources, g1, now)
    ensures |sources| >= MAX_SOURCES && g1 !in sources
    ensures sources[g].cooldownUntil > now ==> forall k | k in sources :: sources[k].cooldownUntil > now
    ensures forall k | k in sources && (sources[k].cooldownUntil > now <==> sources[g].cooldownUntil > now) ::
              sources[g].lastSeen <= sources[k].lastSeen
  {
    var scores := SourceScores(sources, now);
    assert scores.Keys == sources.Keys && IsMinKey(scores, g);
  }

  /** A record is as old as the group's last charge. */
  ghost predicate SeenAfter(s: State, r: Request, s': State, g: Group) {
    g in s'.sources ==>
      if LapsesOf(s, r, g) != {} then s'.sources[g].lastSeen == r.now
      else g in s.sources && s'.sources[g].lastSeen == s.sources[g].lastSeen
  }

  lemma {:induction false} SeenThroughCharges(sources: map<Group, SourceRecord>, gs: seq<Group>, now: u64, g: Group)
    ensures var after := ChargeSources(sources, gs, now);
            g in after ==> if Occurrences(gs, g) > 0 then after[g].lastSeen == now
                           else g in sources && after[g].lastSeen == sources[g].lastSeen
    decreases |gs|
  {
    if gs != [] {
      SeenThroughCharges(ChargeSource(sources, gs[0], now), gs[1..], now, g);
    }
  }

  lemma SeenThroughExpiry(s: State, t: State, r: Request, g: Group)
    requires Expires(s, r) && t.jobs == s.jobs && t.policy == s.policy && t.sources == s.sources && t.workers.Keys == s.workers.Keys
    requires forall w | w in s.workers :: t.workers[w].source == s.workers[w].source
    ensures SeenAfter(s, r, ExpireLeases(t, r.now), g)
  {
    TouchedGroups(s, t, s.jobs.Keys, r.now);
    assert LapsesAmong(s, s.jobs.Keys, g, r.now) == LapsesOf(s, r, g);
    ChargedAsOften(s, s.jobs.Keys, g, r.now);
    SeenThroughCharges(s.sources, LapsedGroups(s, s.jobs.Keys, r.now), r.now, g);
  }

  lemma PollSees(s: State, r: Request, w: Addr, g: Group)
    requires r.step == PollStep(w) && w in s.workers
    ensures SeenAfter(s, r, Lease(s, w, r.now).0, g)
  {
    SeenThroughExpiry(s, Touch(s, w, r.now), r, g);
    AssignLeavesBooks(ExpireLeases(Touch(s, w, r.now), r.now), w, r.now);
  }

  lemma SubmitSees(s: State, w: Addr, i: JobId, result: string, now: u64, g: Group)
    ensures var after := Submit(s, w, i, result, now).0.sources;
            g in after ==> g in s.sources && after[g].lastSeen == s.sources[g].lastSeen
  {
  }

  lemma OthersLeaveSources(s: State, r: Request)
    requires !Expires(s, r) && !r.step.SubmitStep?
    ensures Apply(s, r.step, r.now).sources == s.sources
  {
    match r.step
    case RegisterStep(key, c, source) => RegisterLeavesSources(s, key, c, source, r.now);
    case PollStep(_) =>
    case HeartbeatStep(_, _) =>
    case AddJobStep(_, _) =>
    case NoteStep(_, _, _) =>
  }

  lemma ApplySees(s: State, r: Request, g: Group)
    ensures SeenAfter(s, r, Apply(s, r.step, r.now), g)
  {
    if Expires(s, r) {
      if r.step.PollStep? {
        PollSees(s, r, r.step.worker, g);
      } else {
        SeenThroughExpiry(s, s, r, g);
      }
    } else {
      assert LapsesOf(s, r, g) == {};
      if r.step.SubmitStep? {
        SubmitSees(s, r.step.worker, r.step.job, r.step.result, r.now, g);
      } else {
        OthersLeaveSources(s, r);
      }
    }
  }

  lemma MoveSees(ss: seq<State>, ms: seq<Move>, t: u64, k: nat, g: Group)
    requires IsLife(ss, ms) && Timed(t, ms) && k < |ms| && g in ss[k + 1].sources
    ensures if LapsesAt(ss, ms, k, g) then ss[k + 1].sources[g].lastSeen == At(ms[k])
            else g in ss[k].sources && ss[k + 1].sources[g].lastSeen == ss[k].sources[g].lastSeen
  {
    LifeAt(ss, ms, t, k);
    if ms[k].Asked? {
      MutateIsApply(ss[k], ms[k].request);
      ApplySees(ss[k], ms[k].request, g);
    }
  }

  /** When one of the first `n` moves last found a lapse of the group. */
  function LastCharge(ss: seq<State>, ms: seq<Move>, n: nat, g: Group): Option<u64>
    requires n <= |ms| && |ss| == |ms| + 1
  {
    if n == 0 then None
    else if LapsesAt(ss, ms, n - 1, g) then Some(At(ms[n - 1]))
    else LastCharge(ss, ms, n - 1, g)
  }

  /** In every life from an empty coordinator, restarts included, a group's record is dated at the last lapse found
      of its unvouched workers. */
  lemma {:induction false} SeenAtItsLastCharge(ss: seq<State>, ms: seq<Move>, t: u64, policy: Policy, n: nat, g: Group)
    requires IsLife(ss, ms) && Timed(t, ms) && ss[0] == EmptyState(policy) && n <= |ms| && g in ss[n].sources
    ensures LastCharge(ss, ms, n, g) == Some(ss[n].sources[g].lastSeen)
  {
    if n > 0 {
      MoveSees(ss, ms, t, n - 1, g);
      if !LapsesAt(ss, ms, n - 1, g) {
        SeenAtItsLastCharge(ss, ms, t, policy, n - 1, g);
      }
    }
  }

  /** So nothing is pushed out by a request while the map has room for everything it charges. */
  lemma {:induction false} NothingPushedOutUntilFull(sources: map<Group, SourceRecord>, gs: seq<Group>, now: u64, g: Group)
    requires PushedOut(sources, gs, now, g)
    ensures |sources| + |gs| > MAX_SOURCES
    decreases |gs|
  {
    var next := ChargeSource(sources, gs[0], now);
    if g in sources && g !in next {
      PushesOutTheLeast(sources, gs[0], now, g);
    } else {
      NothingPushedOutUntilFull(next, gs[1..], now, g);
      ChargeAddsOne(sources, gs[0], now);
    }
  }

  lemma ChargeAddsOne(sources: map<Group, SourceRecord>, g1: Group, now: u64)
    ensures |ChargeSource(sources, g1, now)| <= |sources| + 1
  {
    var scores := SourceScores(sources, now);
    if g1 !in sources && |sources| >= MAX_SOURCES && scores != map[] {
      DropSize(sources, MinKey(scores));
      PutSize(sources - {MinKey(scores)}, g1, ChargeSource(sources, g1, now)[g1]);
    } else {
      PutSize(sources, g1, ChargeSource(sources, g1, now)[g1]);
    }
  }
}
