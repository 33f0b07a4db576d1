/** Rate, quota and retry hints over every run of requests, by any keys, dated in any way. */
module AdmissionRate {
  import opened Base
  import opened AdmissionSpec

  /** Requests on a clock that does not go back, the states they go through and their answers. */
  ghost predicate IsRun(xs: seq<Admission>, rs: seq<Request>, ys: seq<Answer>) {
    && |xs| == |rs| + 1 && |ys| == |rs| && xs[0] == Admission(map[], {})
    && (forall n | 0 <= n < |rs| :: AnswersAt(xs, rs, ys, n))
    && (forall m, n | 0 <= m < n < |rs| :: rs[m].now <= rs[n].now)
  }

  ghost predicate AnswersAt(xs: seq<Admission>, rs: seq<Request>, ys: seq<Answer>, n: nat)
    requires n < |rs| == |ys| && |xs| == |rs| + 1
  {
    (xs[n + 1], ys[n]) == Admit(xs[n], rs[n])
  }

  ghost function Clock(rs: seq<Request>, n: nat): u64
    requires n <= |rs|
  {
    if n == 0 then 0 else rs[n - 1].now
  }

  predicate AdmitsAt(rs: seq<Request>, ys: seq<Answer>, k: Key, n: nat)
    requires n < |rs| == |ys|
  {
    rs[n].who == k && ys[n] == Admitted
  }

  lemma RunAt(xs: seq<Admission>, rs: seq<Request>, ys: seq<Answer>, n: nat)
    requires IsRun(xs, rs, ys) && n < |rs|
    ensures xs[n + 1] == Admit(xs[n], rs[n]).0 && ys[n] == Admit(xs[n], rs[n]).1 && Clock(rs, n) <= rs[n].now
  {
    assert AnswersAt(xs, rs, ys, n);
  }

  lemma {:induction false} SoundThroughout(xs: seq<Admission>, rs: seq<Request>, ys: seq<Answer>, n: nat)
    requires IsRun(xs, rs, ys) && n <= |rs|
    ensures Sound(xs[n], Clock(rs, n))
  {
    if n > 0 {
      SoundThroughout(xs, rs, ys, n - 1);
      AdmitKeepsSound(xs[n - 1], rs[n - 1], Clock(rs, n - 1));
      RunAt(xs, rs, ys, n - 1);
    }
  }

  /** Refill instants in a stretch of `d` nanoseconds: floor((d + R - 1) / R), none if it is not positive. */
  function Steps(d: int): nat {
    if d <= 0 then 0 else (d + 1_999_999_999) / 2_000_000_000
  }

  /** A refill of `e` tokens moves the bucket's phase exactly `e` steps. */
  lemma StepsOfRefill(last: int, e: nat, t: int)
    requires last > t - 2_000_000_000
    ensures Steps(last + e * 2_000_000_000 - t) == Steps(last - t) + e
  {
  }

  lemma RefillFacts(k: KeyState, now: u64)
    requires BucketOk(k, now)
    ensures var k1 := Refill(k, now);
            && BucketOk(k1, now) && k1.seen == k.seen && now - k1.lastRefill < 2_000_000_000
            && exists e: nat :: k1.lastRefill == k.lastRefill + e * 2_000_000_000 && k1.tokens <= k.tokens + e
  {
    var earned := SatSub(now, k.lastRefill) / PER_KEY_REFILL_NANOS;
    assert Refill(k, now).lastRefill == k.lastRefill + earned * 2_000_000_000;
  }

  // ---- counting admissions from an instant on ------------------------------------------------

  /** Requests of `k` admitted among the first `n`, counting from instant `t`. */
  ghost function Count(rs: seq<Request>, ys: seq<Answer>, k: Key, t: u64, n: nat): nat
    requires n <= |rs| == |ys|
  {
    if n == 0 then 0
    else Count(rs, ys, k, t, n - 1) + (if AdmitsAt(rs, ys, k, n - 1) && rs[n - 1].now >= t then 1 else 0)
  }

  /** The latest admitted request of `k` among the first `n`. */
  ghost function LastAdmitted(rs: seq<Request>, ys: seq<Answer>, k: Key, n: nat): Option<Request>
    requires n <= |rs| == |ys|
  {
    if n == 0 then None
    else if AdmitsAt(rs, ys, k, n - 1) then Some(rs[n - 1])
    else LastAdmitted(rs, ys, k, n - 1)
  }

  /** The window less one burst's refills, and the nanosecond a timestamp outlives it. */
  const MAX_LAG_NANOS: u64 := 100_000_000_001

  /** Dated at most `lag` behind the clock. */
  predicate Within(r: Request, lag: u64) {
    r.now <= r.ts + lag
  }

  predicate Punctual(r: Request) {
    Within(r, MAX_LAG_NANOS)
  }

  /** `c` admissions since `t` and what the bucket still holds never exceed one burst and the
      refills since `t`; once the key is forgotten its last admission is a full refill ago. */
  ghost predicate Paid(a: Admission, k: Key, c: nat, t: u64, latest: Option<Request>, clock: u64) {
    if latest.None? then k !in a.perKey && c == 0
    else
      var l := latest.value;
      && l.now <= clock && Punctual(l)
      && (l.now < t ==> c == 0)
      && c <= PER_KEY_BURST + Steps(l.now - t)
      && (if k in a.perKey then
            && (c == 0 || (a.perKey[k].lastRefill > t - 2_000_000_000
                           && c + a.perKey[k].tokens <= PER_KEY_BURST + Steps(a.perKey[k].lastRefill - t)))
            && (l.ts in a.perKey[k].seen || l.ts < Cutoff(clock))
          else l.ts < Cutoff(clock))
  }

  lemma PaidThroughPrune(a: Admission, k: Key, c: nat, t: u64, latest: Option<Request>, clock: u64, now: u64)
    requires Paid(a, k, c, t, latest, clock) && clock <= now
    ensures Paid(Prune(a, now), k, c, t, latest, now)
  {
    if k in a.perKey && latest.Some? && latest.value.ts in a.perKey[k].seen && latest.value.ts >= Cutoff(now) {
      assert latest.value.ts in KeptSeen(a.perKey[k].seen, now);
    }
  }

  /** Ten refills fit between a punctual admission and the moment its timestamp is forgotten. */
  lemma FullRefillBeforeForgetting(l: Request, now: u64, t: u64)
    requires Punctual(l) && l.ts < Cutoff(now) && t <= l.now
    ensures Steps(now - t) >= Steps(l.now - t) + PER_KEY_BURST
  {
  }

  lemma PaidByDecision(p: Admission, k: Key, c: nat, t: u64, latest: Option<Request>, r: Request)
    requires Paid(p, k, c, t, latest, r.now) && r.who == k && Punctual(r)
    requires k in p.perKey ==> BucketOk(p.perKey[k], r.now)
    ensures var (key, answer) := Decide(KeyOrNew(p, k, r.now), r.ts, r.now);
            var a' := Admission(p.perKey[k := key], if answer.Admitted? then p.index + {(r.ts, k)} else p.index);
            Paid(a', k, if answer.Admitted? && r.now >= t then c + 1 else c, t,
                 if answer.Admitted? then Some(r) else latest, r.now)
  {
    if k in p.perKey {
      RefillFacts(p.perKey[k], r.now);
      var e: nat :| Refill(p.perKey[k], r.now).lastRefill == p.perKey[k].lastRefill + e * 2_000_000_000
                    && Refill(p.perKey[k], r.now).tokens <= p.perKey[k].tokens + e;
      if c > 0 {
        StepsOfRefill(p.perKey[k].lastRefill, e, t);
      }
    } else if latest.Some? && t <= latest.value.now {
      FullRefillBeforeForgetting(latest.value, r.now, t);
    }
  }

  lemma PaidByOthers(p: Admission, k: Key, c: nat, t: u64, latest: Option<Request>, r: Request)
    requires Paid(p, k, c, t, latest, r.now) && r.who != k
    ensures var (key, answer) := Decide(KeyOrNew(p, r.who, r.now), r.ts, r.now);
            var a' := Admission(p.perKey[r.who := key], if answer.Admitted? then p.index + {(r.ts, r.who)} else p.index);
            Paid(a', k, c, t, latest, r.now)
  {
  }

  lemma PaidStep(a: Admission, k: Key, c: nat, t: u64, latest: Option<Request>, clock: u64, r: Request,
                 a': Admission, admitted: bool)
    requires Paid(a, k, c, t, latest, clock) && Sound(a, clock) && clock <= r.now && (r.who == k ==> Punctual(r))
    requires a' == Admit(a, r).0 && admitted == (r.who == k && Admit(a, r).1 == Admitted)
    ensures Paid(a', k, if admitted && r.now >= t then c + 1 else c, t, if admitted then Some(r) else latest, r.now)
  {
    PaidThroughPrune(a, k, c, t, latest, clock, r.now);
    if r.who == k {
      PaidByDecision(Prune(a, r.now), k, c, t, latest, r);
    } else {
      PaidByOthers(Prune(a, r.now), k, c, t, latest, r);
    }
  }

  lemma PaidNext(xs: seq<Admission>, rs: seq<Request>, ys: seq<Answer>, k: Key, t: u64, n: nat,
                 c: nat, latest: Option<Request>, clock: u64)
    requires IsRun(xs, rs, ys) && n < |rs| && (rs[n].who == k ==> Punctual(rs[n]))
    requires clock == Clock(rs, n) && Paid(xs[n], k, c, t, latest, clock) && Sound(xs[n], clock)
    ensures var admitted := AdmitsAt(rs, ys, k, n);
            Paid(xs[n + 1], k, if admitted && rs[n].now >= t then c + 1 else c, t,
                 if admitted then Some(rs[n]) else latest, rs[n].now)
  {
    RunAt(xs, rs, ys, n);
    PaidStep(xs[n], k, c, t, latest, clock, rs[n], xs[n + 1], AdmitsAt(rs, ys, k, n));
  }

  lemma {:induction false} PaidThroughout(xs: seq<Admission>, rs: seq<Request>, ys: seq<Answer>, k: Key, t: u64, n: nat)
    requires IsRun(xs, rs, ys) && n <= |rs| && forall m | 0 <= m < |rs| && rs[m].who == k :: Punctual(rs[m])
    ensures Paid(xs[n], k, Count(rs, ys, k, t, n), t, LastAdmitted(rs, ys, k, n), Clock(rs, n))
  {
    if n > 0 {
      var c, latest, clock := Count(rs, ys, k, t, n - 1), LastAdmitted(rs, ys, k, n - 1), Clock(rs, n - 1);
      PaidThroughout(xs, rs, ys, k, t, n - 1);
      SoundThroughout(xs, rs, ys, n - 1);
      PaidNext(xs, rs, ys, k, t, n - 1, c, latest, clock);
    }
  }

  /** The rate bound: a key whose requests are dated at most 100 s and 1 ns behind is admitted at most
      10 + floor((L + R - 1) / R) times in any interval of length L, although the coordinator
      forgets idle keys and starts them over with a full bucket. */
  lemma AdmittedAtMost(xs: seq<Admission>, rs: seq<Request>, ys: seq<Answer>, k: Key, t: u64, n: nat)
    requires IsRun(xs, rs, ys) && 0 < n <= |rs| && t <= Clock(rs, n)
    requires forall m | 0 <= m < |rs| && rs[m].who == k :: Punctual(rs[m])
    ensures Count(rs, ys, k, t, n) <= 10 + (Clock(rs, n) - t + PER_KEY_REFILL_NANOS - 1) / PER_KEY_REFILL_NANOS
  {
    PaidThroughout(xs, rs, ys, k, t, n);
  }

  // ---- the quota ----------------------------------------------------------------------------

  /** Dated at most 30 s ahead of the clock. */
  predicate NotAhead(r: Request) {
    r.ts <= r.now + MAX_FUTURE_SKEW_NANOS
  }

  /** Entries of `log` made at `x` or later. */
  ghost function Since(log: seq<Request>, x: int): nat {
    if log == [] then 0
    else Since(log[..|log| - 1], x) + (if log[|log| - 1].now >= x then 1 else 0)
  }

  /** The admissions of `k` since its record was last created, while it is tracked. */
  ghost function Life(xs: seq<Admission>, rs: seq<Request>, ys: seq<Answer>, k: Key, n: nat): seq<Request>
    requires n <= |rs| == |ys| && |rs| < |xs|
  {
    if n == 0 || k !in xs[n].perKey then []
    else if AdmitsAt(rs, ys, k, n - 1) then
      (if k in Prune(xs[n - 1], rs[n - 1].now).perKey then Life(xs, rs, ys, k, n - 1) else []) + [rs[n - 1]]
    else Life(xs, rs, ys, k, n - 1)
  }

  ghost predicate Logged(log: seq<Request>, ts: u64) {
    exists i | 0 <= i < |log| :: log[i].ts == ts
  }

  ghost predicate Metered(log: seq<Request>, k: KeyState, x: int) {
    Since(log, x) == 0 ||
    (k.lastRefill > x - 2_000_000_000 && Since(log, x) + k.tokens <= PER_KEY_BURST + Steps(k.lastRefill - x))
  }

  ghost predicate Lived(a: Admission, k: Key, log: seq<Request>, clock: u64) {
    && (forall i | 0 <= i < |log| :: NotAhead(log[i]) && log[i].now <= clock)
    && (k in a.perKey ==>
          && (forall ts | ts in a.perKey[k].seen :: Logged(log, ts))
          && forall x: int :: Metered(log, a.perKey[k], x))
  }

  lemma SinceOfMore(log: seq<Request>, r: Request, x: int)
    ensures Since(log + [r], x) == Since(log, x) + (if r.now >= x then 1 else 0)
  {
    assert (log + [r])[..|log|] == log;
  }

  /** Distinct timestamps logged at `x` or later are no more than the entries since `x`. */
  lemma {:induction false} SeenBySince(seen: set<u64>, log: seq<Request>, x: int)
    requires forall ts | ts in seen :: exists i | 0 <= i < |log| :: log[i].ts == ts && log[i].now >= x
    ensures |seen| <= Since(log, x)
    decreases |log|
  {
    if log == [] {
      assert seen == {};
    } else {
      var r, rest := log[|log| - 1], log[..|log| - 1];
      var others := if r.now >= x then seen - {r.ts} else seen;
      forall ts | ts in others ensures exists i | 0 <= i < |rest| :: rest[i].ts == ts && rest[i].now >= x {
        var i :| 0 <= i < |log| && log[i].ts == ts && log[i].now >= x;
        assert rest[i] == log[i];
      }
      SeenBySince(others, rest, x);
    }
  }

  lemma MeteredThroughRefill(log: seq<Request>, k: KeyState, now: u64, x: int)
    requires Metered(log, k, x) && BucketOk(k, now)
    ensures Metered(log, Refill(k, now), x)
  {
    RefillFacts(k, now);
    var e: nat :| Refill(k, now).lastRefill == k.lastRefill + e * 2_000_000_000 && Refill(k, now).tokens <= k.tokens + e;
    if Since(log, x) > 0 {
      StepsOfRefill(k.lastRefill, e, x);
    }
  }

  lemma {:induction false} NoneSinceLater(log: seq<Request>, x: int)
    requires forall i | 0 <= i < |log| :: log[i].now < x
    ensures Since(log, x) == 0
    decreases |log|
  {
    if log != [] {
      NoneSinceLater(log[..|log| - 1], x);
    }
  }

  /** One admission: the log grows by one, the bucket shrinks by one. */
  lemma MeteredByAdmission(log: seq<Request>, k: KeyState, r: Request, x: int)
    requires Metered(log, k, x) && k.tokens >= 1 && k.tokens <= PER_KEY_BURST && r.now - k.lastRefill < 2_000_000_000
    requires forall i | 0 <= i < |log| :: log[i].now <= r.now
    ensures Metered(log + [r], k.(tokens := k.tokens - 1, seen := k.seen + {r.ts}), x)
  {
    SinceOfMore(log, r, x);
    if r.now < x {
      NoneSinceLater(log, x);
    }
  }

  lemma LivedByDecision(p: Admission, k: Key, log: seq<Request>, r: Request)
    requires Lived(p, k, log, r.now) && r.who == k && NotAhead(r)
    requires k in p.perKey ==> BucketOk(p.perKey[k], r.now)
    requires k !in p.perKey ==> log == []
    ensures var (key, answer) := Decide(KeyOrNew(p, k, r.now), r.ts, r.now);
            var log' := if answer.Admitted? then log + [r] else log;
            && (forall i | 0 <= i < |log'| :: NotAhead(log'[i]) && log'[i].now <= r.now)
            && (forall ts | ts in key.seen :: Logged(log', ts))
            && forall x: int :: Metered(log', key, x)
  {
    var k0 := KeyOrNew(p, k, r.now);
    var (key, answer) := Decide(k0, r.ts, r.now);
    RefillFacts(k0, r.now);
    var k1 := Refill(k0, r.now);
    forall x: int ensures Metered(log, k0, x) && Metered(log, k1, x) {
      if k in p.perKey {
        assert Metered(log, p.perKey[k], x);
      }
      MeteredThroughRefill(log, k0, r.now, x);
    }
    if answer.Admitted? {
      forall x: int ensures Metered(log + [r], key, x) {
        MeteredByAdmission(log, k1, r, x);
      }
      forall ts | ts in key.seen ensures Logged(log + [r], ts) {
        if ts == r.ts {
          assert (log + [r])[|log|].ts == ts;
        } else {
          assert Logged(log, ts);
          var i :| 0 <= i < |log| && log[i].ts == ts;
          assert (log + [r])[i].ts == ts;
        }
      }
    }
  }

  ghost predicate LivedOrGone(a: Admission, k: Key, log: seq<Request>, clock: u64) {
    Lived(a, k, log, clock) && (k !in a.perKey ==> log == [])
  }

  lemma LivedStep(a: Admission, k: Key, log: seq<Request>, clock: u64, r: Request)
    requires LivedOrGone(a, k, log, clock) && Sound(a, clock) && clock <= r.now && (r.who == k ==> NotAhead(r))
    ensures var (a', answer) := Admit(a, r);
            var kept := if k in Prune(a, r.now).perKey then log else [];
            LivedOrGone(a', k, if k !in a'.perKey then [] else
                               if r.who == k && answer == Admitted then kept + [r] else log, r.now)
  {
    var p := Prune(a, r.now);
    var kept := if k in p.perKey then log else [];
    LivedThroughPrune(a, k, log, clock, r.now);
    if r.who == k {
      LivedByDecision(p, k, kept, r);
    } else {
      LivedByOthers(p, k, kept, r);
    }
  }

  lemma LivedByOthers(p: Admission, k: Key, log: seq<Request>, r: Request)
    requires LivedOrGone(p, k, log, r.now) && r.who != k
    ensures var (key, answer) := Decide(KeyOrNew(p, r.who, r.now), r.ts, r.now);
            var a' := Admission(p.perKey[r.who := key], if answer.Admitted? then p.index + {(r.ts, r.who)} else p.index);
            LivedOrGone(a', k, log, r.now)
  {
  }

  lemma {:induction false} LivedThroughout(xs: seq<Admission>, rs: seq<Request>, ys: seq<Answer>, k: Key, n: nat)
    requires IsRun(xs, rs, ys) && n <= |rs| && forall m | 0 <= m < |rs| && rs[m].who == k :: NotAhead(rs[m])
    ensures LivedOrGone(xs[n], k, Life(xs, rs, ys, k, n), Clock(rs, n))
  {
    if n > 0 {
      LivedThroughout(xs, rs, ys, k, n - 1);
      SoundThroughout(xs, rs, ys, n - 1);
      LivedNext(xs, rs, ys, k, n - 1, Life(xs, rs, ys, k, n - 1), Clock(rs, n - 1));
    }
  }

  lemma LivedNext(xs: seq<Admission>, rs: seq<Request>, ys: seq<Answer>, k: Key, n: nat, log: seq<Request>, clock: u64)
    requires IsRun(xs, rs, ys) && n < |rs| && (rs[n].who == k ==> NotAhead(rs[n]))
    requires clock == Clock(rs, n) && LivedOrGone(xs[n], k, log, clock) && Sound(xs[n], clock)
    ensures LivedOrGone(xs[n + 1], k,
                        if k !in xs[n + 1].perKey then []
                        else if AdmitsAt(rs, ys, k, n) then
                          (if k in Prune(xs[n], rs[n].now).perKey then log else []) + [rs[n]]
                        else log, rs[n].now)
  {
    RunAt(xs, rs, ys, n);
    LivedStep(xs[n], k, log, clock, rs[n]);
  }

  lemma LivedThroughPrune(a: Admission, k: Key, log: seq<Request>, clock: u64, now: u64)
    requires Lived(a, k, log, clock) && clock <= now
    ensures var p := Prune(a, now);
            Lived(p, k, if k in p.perKey then log else [], now)
  {
    var p := Prune(a, now);
    if k in p.perKey {
      forall x: int ensures Metered(log, p.perKey[k], x) {
        assert Metered(log, a.perKey[k], x);
      }
    }
  }

  /** The quota branch is unreachable: no key dated at most 30 s ahead ever has more than 85
      timestamps remembered when it asks, so 160 is never reached. */
  lemma QuotaIsNeverReached(xs: seq<Admission>, rs: seq<Request>, ys: seq<Answer>, k: Key, n: nat)
    requires IsRun(xs, rs, ys) && n < |rs| && rs[n].who == k
    requires forall m | 0 <= m < |rs| && rs[m].who == k :: NotAhead(rs[m])
    ensures var p := Prune(xs[n], rs[n].now); k in p.perKey ==> |p.perKey[k].seen| <= 85
    ensures !ys[n].OverQuota?
  {
    var now := rs[n].now;
    var p := Prune(xs[n], now);
    if k in p.perKey {
      LivedThroughout(xs, rs, ys, k, n);
      SoundThroughout(xs, rs, ys, n);
      var log := Life(xs, rs, ys, k, n);
      LivedThroughPrune(xs[n], k, log, Clock(rs, n), now);
      var x := Cutoff(now) - MAX_FUTURE_SKEW_NANOS;
      forall ts | ts in p.perKey[k].seen ensures exists i | 0 <= i < |log| :: log[i].ts == ts && log[i].now >= x {
        assert Logged(log, ts);
        var i :| 0 <= i < |log| && log[i].ts == ts;
        assert NotAhead(log[i]);
      }
      SeenBySince(p.perKey[k].seen, log, x);
      assert Metered(log, p.perKey[k], x);
    }
    RunAt(xs, rs, ys, n);
  }

  // ---- the retry hint -------------------------------------------------------------------------

  /** `k` will find a token at `until`, unless it spends one first. */
  ghost predicate TokenBy(a: Admission, k: Key, until: int) {
    k in a.perKey ==> a.perKey[k].lastRefill + PER_KEY_REFILL_NANOS <= until
  }

  lemma {:induction false} TokenStaysDue(xs: seq<Admission>, rs: seq<Request>, ys: seq<Answer>, k: Key, m: nat, n: nat, until: int)
    requires IsRun(xs, rs, ys) && m <= n <= |rs| && TokenBy(xs[m], k, until)
    requires forall j | m <= j < n :: rs[j].who != k
    ensures TokenBy(xs[n], k, until)
    decreases n
  {
    if m < n {
      TokenStaysDue(xs, rs, ys, k, m, n - 1, until);
      RunAt(xs, rs, ys, n - 1);
    }
  }

  /** Told to come back after `s` seconds, the key will find a token then. */
  lemma HintIsDue(a: Admission, t: u64, r: Request)
    requires Sound(a, t) && t <= r.now && Admit(a, r).1.TooFast? && r.now + PER_KEY_REFILL_NANOS <= MAX64
    ensures TokenBy(Admit(a, r).0, r.who, r.now + Admit(a, r).1.retryAfterSecs * 1_000_000_000)
  {
    DecisionKeepsBucket(KeyOrNew(Prune(a, r.now), r.who, r.now), r.ts, r.now);
  }

  lemma NotTooFastWhenDue(a: Admission, r: Request)
    requires TokenBy(a, r.who, r.now)
    ensures !Admit(a, r).1.TooFast?
  {
    if r.who in Prune(a, r.now).perKey {
      EarnedWhenDue(Prune(a, r.now).perKey[r.who], r.now);
    }
  }

  lemma EarnedWhenDue(k: KeyState, now: u64)
    requires k.lastRefill + PER_KEY_REFILL_NANOS <= now
    ensures Refill(k, now).tokens >= 1
  {
  }

  /** The hint is honest: a key told to come back after `s` seconds, that next asks at or after
      that instant, is not told again that it is too fast, whatever other keys did meanwhile. */
  lemma HintIsHonest(xs: seq<Admission>, rs: seq<Request>, ys: seq<Answer>, k: Key, m: nat, n: nat)
    requires IsRun(xs, rs, ys) && m < n < |rs| && rs[m].who == k && rs[n].who == k
    requires forall j | m < j < n :: rs[j].who != k
    requires ys[m].TooFast? && rs[m].now + PER_KEY_REFILL_NANOS <= MAX64
    requires rs[n].now >= rs[m].now + ys[m].retryAfterSecs * 1_000_000_000
    ensures !ys[n].TooFast?
  {
    SoundThroughout(xs, rs, ys, m);
    RunAt(xs, rs, ys, m);
    HintIsDue(xs[m], Clock(rs, m), rs[m]);
    TokenStaysDue(xs, rs, ys, k, m + 1, n, rs[n].now);
    RunAt(xs, rs, ys, n);
    NotTooFastWhenDue(xs[n], rs[n]);
  }
}
