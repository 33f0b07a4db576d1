/** Single use of signed timestamps over every run, and what the hints of a refusal promise. */
module AdmissionReplay {
  import opened Base
  import opened AdmissionSpec
  import opened AdmissionRate

  /** Is a timestamp still inside the window at `now`? */
  predicate InWindow(ts: u64, now: u64) {
    now <= ts + WINDOW_PAST_NANOS
  }

  /** Request `m` was `k`'s, dated `ts`, and admitted. */
  predicate Used(rs: seq<Request>, ys: seq<Answer>, k: Key, ts: u64, m: nat)
    requires m < |rs| == |ys|
  {
    AdmitsAt(rs, ys, k, m) && rs[m].ts == ts
  }

  /** One of the first `n` requests used the timestamp, and no request since has found it out of the window. */
  ghost predicate StillUsed(rs: seq<Request>, ys: seq<Answer>, k: Key, ts: u64, n: nat)
    requires n <= |rs| == |ys|
  {
    exists m | 0 <= m < n :: Used(rs, ys, k, ts, m) && (m == n - 1 || InWindow(ts, rs[n - 1].now))
  }

  ghost predicate Holds(a: Admission, k: Key, ts: u64) {
    k in a.perKey && ts in a.perKey[k].seen
  }

  lemma PruneHolds(a: Admission, k: Key, ts: u64, now: u64)
    ensures Holds(Prune(a, now), k, ts) <==> Holds(a, k, ts) && InWindow(ts, now)
  {
    if Holds(a, k, ts) && InWindow(ts, now) {
      assert ts in KeptSeen(a.perKey[k].seen, now);
    }
  }

  lemma AdmitHolds(a: Admission, r: Request, k: Key, ts: u64)
    ensures Holds(Admit(a, r).0, k, ts)
       <==> (Holds(a, k, ts) && InWindow(ts, r.now)) || (Admit(a, r).1 == Admitted && r.who == k && r.ts == ts)
    ensures Admit(a, r).1 == Replay <==> Holds(a, r.who, r.ts) && InWindow(r.ts, r.now)
  {
    PruneHolds(a, k, ts, r.now);
    PruneHolds(a, r.who, r.ts, r.now);
    DecisionSeen(KeyOrNew(Prune(a, r.now), r.who, r.now), r.ts, r.now);
  }

  lemma DecisionSeen(k: KeyState, ts: u64, now: u64)
    ensures var (k', answer) := Decide(k, ts, now);
            && k'.seen == (if answer.Admitted? then k.seen + {ts} else k.seen)
            && (answer.Replay? <==> ts in k.seen)
  {
  }

  /** What a key holds against replay is what it used and the window has not let go of. */
  lemma {:induction false} HoldsWhatIsUsed(xs: seq<Admission>, rs: seq<Request>, ys: seq<Answer>, k: Key, ts: u64, n: nat)
    requires IsRun(xs, rs, ys) && n <= |rs|
    ensures Holds(xs[n], k, ts) <==> StillUsed(rs, ys, k, ts, n)
  {
    if n > 0 {
      HoldsWhatIsUsed(xs, rs, ys, k, ts, n - 1);
      RunAt(xs, rs, ys, n - 1);
      AdmitHolds(xs[n - 1], rs[n - 1], k, ts);
      UsedNext(rs, ys, k, ts, n - 1);
    }
  }

  lemma UsedNext(rs: seq<Request>, ys: seq<Answer>, k: Key, ts: u64, n: nat)
    requires n < |rs| == |ys| && forall i, j | 0 <= i < j < |rs| :: rs[i].now <= rs[j].now
    ensures StillUsed(rs, ys, k, ts, n + 1)
       <==> (StillUsed(rs, ys, k, ts, n) && InWindow(ts, rs[n].now)) || Used(rs, ys, k, ts, n)
  {
    if StillUsed(rs, ys, k, ts, n) && InWindow(ts, rs[n].now) {
      var m :| 0 <= m < n && Used(rs, ys, k, ts, m);
      assert Used(rs, ys, k, ts, m) && InWindow(ts, rs[n].now);
    }
    if StillUsed(rs, ys, k, ts, n + 1) {
      var m :| 0 <= m < n + 1 && Used(rs, ys, k, ts, m) && (m == n || InWindow(ts, rs[n].now));
      if m < n {
        assert Used(rs, ys, k, ts, m) && (m == n - 1 || InWindow(ts, rs[n - 1].now));
      }
    }
  }

  /** A request is answered as a replay if and only if an earlier request of the same key with the same
      timestamp was admitted and the timestamp has not left the window. */
  lemma ReplayExactly(xs: seq<Admission>, rs: seq<Request>, ys: seq<Answer>, n: nat)
    requires IsRun(xs, rs, ys) && n < |rs|
    ensures ys[n] == Replay
       <==> InWindow(rs[n].ts, rs[n].now) && exists m | 0 <= m < n :: AdmitsAt(rs, ys, rs[n].who, m) && rs[m].ts == rs[n].ts
  {
    var k, ts := rs[n].who, rs[n].ts;
    HoldsWhatIsUsed(xs, rs, ys, k, ts, n);
    RunAt(xs, rs, ys, n);
    AdmitHolds(xs[n], rs[n], k, ts);
    if m :| 0 <= m < n && AdmitsAt(rs, ys, k, m) && rs[m].ts == ts {
      assert Used(rs, ys, k, ts, m);
      assert InWindow(ts, rs[n].now) ==> InWindow(ts, rs[n - 1].now);
    }
    if m :| 0 <= m < n && Used(rs, ys, k, ts, m) {
      assert AdmitsAt(rs, ys, k, m) && rs[m].ts == ts;
    }
  }

  /** So no timestamp of a key is admitted twice while it is inside the window. */
  lemma AdmittedOnce(xs: seq<Admission>, rs: seq<Request>, ys: seq<Answer>, k: Key, m: nat, n: nat)
    requires IsRun(xs, rs, ys) && m < n < |rs| && AdmitsAt(rs, ys, k, m) && AdmitsAt(rs, ys, k, n) && rs[m].ts == rs[n].ts
    ensures rs[n].now > rs[n].ts + WINDOW_PAST_NANOS
  {
    ReplayExactly(xs, rs, ys, n);
  }

  // ---- what the hints promise -----------------------------------------------------------------

  /** A key refused for speed keeps its empty bucket while it stays away and anything it used is remembered. */
  lemma {:induction false} StaysEmpty(xs: seq<Admission>, rs: seq<Request>, ys: seq<Answer>, k: Key, ts: u64, m: nat, n: nat)
    requires IsRun(xs, rs, ys) && m <= n <= |rs| && Holds(xs[n], k, ts) && forall j | m <= j < n :: rs[j].who != k
    ensures Holds(xs[m], k, ts)
    ensures xs[n].perKey[k].tokens == xs[m].perKey[k].tokens && xs[n].perKey[k].lastRefill == xs[m].perKey[k].lastRefill
    decreases n
  {
    if m < n {
      RunAt(xs, rs, ys, n - 1);
      AdmitHolds(xs[n - 1], rs[n - 1], k, ts);
      StaysEmpty(xs, rs, ys, k, ts, m, n - 1);
    }
  }

  /** A refusal for speed leaves no token, and the next comes within the hinted second. */
  lemma RefusedForSpeed(a: Admission, t: u64, r: Request)
    requires Sound(a, t) && t <= r.now && Admit(a, r).1.TooFast? && r.now + PER_KEY_REFILL_NANOS <= MAX64
    ensures r.who in Admit(a, r).0.perKey && Admit(a, r).0.perKey[r.who].tokens == 0
    ensures var due := Admit(a, r).0.perKey[r.who].lastRefill + PER_KEY_REFILL_NANOS; var h := Admit(a, r).1.retryAfterSecs;
            h >= 1 && r.now + (h - 1) * 1_000_000_000 < due <= r.now + h * 1_000_000_000
  {
    var k := KeyOrNew(Prune(a, r.now), r.who, r.now);
    Leftover(r.now - k.lastRefill);
    var wait := Refill(k, r.now).lastRefill + PER_KEY_REFILL_NANOS - r.now;
    assert Admit(a, r).1.retryAfterSecs == CeilSecs(wait);
    InSeconds(wait);
  }

  lemma Leftover(d: nat)
    ensures d < (d / PER_KEY_REFILL_NANOS + 1) * PER_KEY_REFILL_NANOS && d / PER_KEY_REFILL_NANOS * PER_KEY_REFILL_NANOS <= d
  {
  }

  lemma InSeconds(nanos: u64)
    ensures CeilSecs(nanos) >= 1 && nanos <= CeilSecs(nanos) * 1_000_000_000
    ensures nanos > 0 ==> (CeilSecs(nanos) - 1) * 1_000_000_000 < nanos
  {
  }

  lemma NotDueYet(a: Admission, r: Request)
    requires r.who in Prune(a, r.now).perKey && a.perKey[r.who].tokens == 0
    requires r.now < a.perKey[r.who].lastRefill + PER_KEY_REFILL_NANOS
    ensures Admit(a, r).1.Replay? || Admit(a, r).1.TooFast?
  {
  }

  lemma RefusedAt(xs: seq<Admission>, rs: seq<Request>, ys: seq<Answer>, m: nat)
    requires IsRun(xs, rs, ys) && m < |rs| && ys[m].TooFast? && rs[m].now + PER_KEY_REFILL_NANOS <= MAX64
    ensures rs[m].who in xs[m + 1].perKey && xs[m + 1].perKey[rs[m].who].tokens == 0 && ys[m].retryAfterSecs >= 1
    ensures rs[m].now + (ys[m].retryAfterSecs - 1) * 1_000_000_000 < xs[m + 1].perKey[rs[m].who].lastRefill + PER_KEY_REFILL_NANOS
  {
    SoundThroughout(xs, rs, ys, m);
    RunAt(xs, rs, ys, m);
    RefusedForSpeed(xs[m], Clock(rs, m), rs[m]);
  }

  /** The hint is no longer than it must be: a key told to come back after `s` seconds that next asks a second
      earlier or sooner, something it used still in the window, is again too fast, or replays. */
  lemma HintIsLeast(xs: seq<Admission>, rs: seq<Request>, ys: seq<Answer>, k: Key, ts: u64, m: nat, n: nat)
    requires IsRun(xs, rs, ys) && m < n < |rs| && rs[m].who == k && rs[n].who == k
    requires forall j | m < j < n :: rs[j].who != k
    requires ys[m].TooFast? && rs[m].now + PER_KEY_REFILL_NANOS <= MAX64
    requires StillUsed(rs, ys, k, ts, n) && InWindow(ts, rs[n].now)
    requires rs[n].now <= rs[m].now + (ys[m].retryAfterSecs - 1) * 1_000_000_000
    ensures ys[m].retryAfterSecs >= 1 && (ys[n].TooFast? || ys[n].Replay?)
  {
    HoldsWhatIsUsed(xs, rs, ys, k, ts, n);
    StaysEmpty(xs, rs, ys, k, ts, m + 1, n);
    RefusedAt(xs, rs, ys, m);
    RunAt(xs, rs, ys, n);
    PruneHolds(xs[n], k, ts, rs[n].now);
    NotDueYet(xs[n], rs[n]);
  }

  // ---- who is refused for speed ---------------------------------------------------------------

  /** Of a full bucket and its refills from `x` on, at most the `c` tokens taken since `x` are gone. */
  predicate Serves(k: KeyState, x: int, c: nat) {
    x <= k.lastRefill ==> k.tokens >= Min(10, (k.lastRefill - x) / 2_000_000_000) - c
  }

  lemma RefillServes(k: KeyState, now: u64, x: int, c: nat)
    requires Serves(k, x, c) && BucketOk(k, now)
    ensures Serves(Refill(k, now), x, c)
  {
    var e := SatSub(now, k.lastRefill) / PER_KEY_REFILL_NANOS;
    if x <= k.lastRefill {
      MoreSteps(k.lastRefill - x, e);
    } else if x <= k.lastRefill + e * 2_000_000_000 {
      FewerSteps(k.lastRefill + e * 2_000_000_000 - x, e);
    }
  }

  lemma MoreSteps(d: nat, e: nat)
    ensures (d + e * 2_000_000_000) / 2_000_000_000 == d / 2_000_000_000 + e
  {
  }

  lemma FewerSteps(d: nat, e: nat)
    requires d < e * 2_000_000_000
    ensures d / 2_000_000_000 < e
  {
  }

  lemma DecisionServes(k: KeyState, ts: u64, now: u64, x: int, c: nat)
    requires Serves(k, x, c) && BucketOk(k, now)
    ensures var (k', answer) := Decide(k, ts, now);
            Serves(k', x, if answer.Admitted? && x <= now then c + 1 else c)
  {
    RefillServes(k, now, x, c);
  }

  lemma AdmitServes(a: Admission, t: u64, r: Request, k: Key, x: int, c: nat)
    requires Sound(a, t) && t <= r.now && (k in a.perKey ==> Serves(a.perKey[k], x, c))
    ensures var (a', answer) := Admit(a, r);
            k in a'.perKey ==> Serves(a'.perKey[k], x, if r.who == k && answer.Admitted? && x <= r.now then c + 1 else c)
  {
    if r.who == k {
      DecisionServes(KeyOrNew(Prune(a, r.now), k, r.now), r.ts, r.now, x, c);
    }
  }

  lemma {:induction false} ServesThroughout(xs: seq<Admission>, rs: seq<Request>, ys: seq<Answer>, k: Key, x: int, n: nat)
    requires IsRun(xs, rs, ys) && n <= |rs| && x <= MAX64
    ensures k in xs[n].perKey ==> Serves(xs[n].perKey[k], x, Count(rs, ys, k, Max(x, 0), n))
  {
    if n > 0 {
      ServesThroughout(xs, rs, ys, k, x, n - 1);
      ServesAt(xs, rs, ys, k, x, n - 1, Count(rs, ys, k, Max(x, 0), n - 1));
    }
  }

  lemma ServesAt(xs: seq<Admission>, rs: seq<Request>, ys: seq<Answer>, k: Key, x: int, n: nat, c: nat)
    requires IsRun(xs, rs, ys) && n < |rs| && (k in xs[n].perKey ==> Serves(xs[n].perKey[k], x, c))
    ensures k in xs[n + 1].perKey ==> Serves(xs[n + 1].perKey[k], x, if AdmitsAt(rs, ys, k, n) && x <= rs[n].now then c + 1 else c)
  {
    SoundThroughout(xs, rs, ys, n);
    RunAt(xs, rs, ys, n);
    AdmitServes(xs[n], Clock(rs, n), rs[n], k, x, c);
  }

  lemma {:induction false} CountSinceEarlier(rs: seq<Request>, ys: seq<Answer>, k: Key, s: u64, t: u64, n: nat)
    requires n <= |rs| == |ys| && s <= t
    ensures Count(rs, ys, k, t, n) <= Count(rs, ys, k, s, n)
  {
    if n > 0 {
      CountSinceEarlier(rs, ys, k, s, t, n - 1);
    }
  }

  /** Nobody is refused for speed out of turn: a key told that it is too fast was admitted ten times or more in the
      last 22 s, however often and however dated it or others asked. */
  lemma TooFastOnlyAfterABurst(xs: seq<Admission>, rs: seq<Request>, ys: seq<Answer>, n: nat)
    requires IsRun(xs, rs, ys) && n < |rs| && ys[n].TooFast?
    ensures Count(rs, ys, rs[n].who, Max(rs[n].now - 22_000_000_000, 0), n) >= 10
  {
    var x := TenSince(xs, rs, ys, n);
    var from: int := rs[n].now - 22_000_000_000;
    CountSinceEarlier(rs, ys, rs[n].who, Max(from, 0), Max(x, 0), n);
  }

  lemma TenSince(xs: seq<Admission>, rs: seq<Request>, ys: seq<Answer>, n: nat) returns (x: int)
    requires IsRun(xs, rs, ys) && n < |rs| && ys[n].TooFast?
    ensures rs[n].now - 22_000_000_000 < x <= rs[n].now && Count(rs, ys, rs[n].who, Max(x, 0), n) >= 10
  {
    SoundThroughout(xs, rs, ys, n);
    RunAt(xs, rs, ys, n);
    EmptyAndRecent(xs[n], Clock(rs, n), rs[n]);
    var last: int := xs[n + 1].perKey[rs[n].who].lastRefill;
    x := last - 20_000_000_000;
    ServesThroughout(xs, rs, ys, rs[n].who, x, n + 1);
  }

  lemma EmptyAndRecent(a: Admission, t: u64, r: Request)
    requires Sound(a, t) && t <= r.now && Admit(a, r).1.TooFast?
    ensures r.who in Admit(a, r).0.perKey
    ensures var k := Admit(a, r).0.perKey[r.who]; k.tokens == 0 && r.now - 2_000_000_000 < k.lastRefill <= r.now
  {
    RefillFacts(KeyOrNew(Prune(a, r.now), r.who, r.now), r.now);
  }

  function Remembered(a: Admission, k: Key): nat {
    if k in a.perKey then |a.perKey[k].seen| else 0
  }

  /** A key's memory stays within its quota on every run, whatever timestamps it signs: with 160 inside the window
      it is refused, and it is refused for that with 160 only. */
  lemma {:induction false} MemoryIsBounded(xs: seq<Admission>, rs: seq<Request>, ys: seq<Answer>, k: Key, n: nat)
    requires IsRun(xs, rs, ys) && n <= |rs|
    ensures Remembered(xs[n], k) <= 160
    ensures n < |rs| && rs[n].who == k ==>
              var kept := Remembered(Prune(xs[n], rs[n].now), k);
              (ys[n].OverQuota? ==> kept == 160) && (kept == 160 ==> ys[n] != Admitted)
  {
    if n > 0 {
      MemoryIsBounded(xs, rs, ys, k, n - 1);
      MemoryAt(xs, rs, ys, k, n - 1);
    }
    if n < |rs| {
      MemoryAt(xs, rs, ys, k, n);
    }
  }

  lemma MemoryAt(xs: seq<Admission>, rs: seq<Request>, ys: seq<Answer>, k: Key, n: nat)
    requires IsRun(xs, rs, ys) && n < |rs| && Remembered(xs[n], k) <= 160
    ensures Remembered(xs[n + 1], k) <= 160
    ensures rs[n].who == k ==>
              var kept := Remembered(Prune(xs[n], rs[n].now), k);
              (ys[n].OverQuota? ==> kept == 160) && (kept == 160 ==> ys[n] != Admitted)
  {
    RunAt(xs, rs, ys, n);
    AdmitRemembers(xs[n], rs[n], k);
  }

  lemma AdmitRemembers(a: Admission, r: Request, k: Key)
    requires Remembered(a, k) <= 160
    ensures Remembered(Admit(a, r).0, k) <= 160
    ensures r.who == k ==>
              var kept := Remembered(Prune(a, r.now), k);
              (Admit(a, r).1.OverQuota? ==> kept == 160) && (kept == 160 ==> Admit(a, r).1 != Admitted)
  {
    PruneForgets(a, k, r.now);
    DecisionSeen(KeyOrNew(Prune(a, r.now), r.who, r.now), r.ts, r.now);
  }

  lemma PruneForgets(a: Admission, k: Key, now: u64)
    ensures Remembered(Prune(a, now), k) <= Remembered(a, k)
  {
    if k in a.perKey {
      SubsetSize(KeptSeen(a.perKey[k].seen, now), a.perKey[k].seen);
    }
  }

  /** The hint of a full memory: by the instant it names, the oldest timestamp has left the window, except exactly
      when it leaves a whole number of seconds from now, for at that instant it is still inside. */
  lemma QuotaHintExactly(a: Admission, r: Request, oldest: u64)
    requires Admit(a, r).1.OverQuota? && Holds(a, r.who, oldest) && InWindow(oldest, r.now) && oldest + WINDOW_PAST_NANOS <= MAX64
    requires forall ts | Holds(a, r.who, ts) && InWindow(ts, r.now) :: oldest <= ts
    ensures var h := Admit(a, r).1.retryAfterSecs; var left := oldest + WINDOW_PAST_NANOS - r.now;
            && h >= 1 && (r.now + h * 1_000_000_000 <= oldest + WINDOW_PAST_NANOS <==> left > 0 && left % 1_000_000_000 == 0)
            && (h > 1 ==> r.now + (h - 1) * 1_000_000_000 <= oldest + WINDOW_PAST_NANOS)
  {
    var k := KeyOrNew(Prune(a, r.now), r.who, r.now);
    PruneHolds(a, r.who, oldest, r.now);
    forall ts | ts in k.seen ensures oldest <= ts {
      PruneHolds(a, r.who, ts, r.now);
    }
    assert Refill(k, r.now).seen == k.seen && Oldest(k.seen) == oldest;
    WholeSeconds(oldest + WINDOW_PAST_NANOS - r.now);
  }

  lemma WholeSeconds(left: u64)
    ensures var h := CeilSecs(left);
            && h >= 1 && (h * 1_000_000_000 <= left <==> left > 0 && left % 1_000_000_000 == 0)
            && (h > 1 ==> (h - 1) * 1_000_000_000 <= left)
  {
  }
}
