/** The gate beside a bucket that never forgets, offered the same requests. */
module AdmissionIdeal {
  import opened Base
  import opened AdmissionSpec
  import opened AdmissionRate
  import opened AdmissionEdge

  datatype Bucket = Bucket(tokens: nat, last: nat)

  function Topped(b: Bucket, now: u64, burst: nat): (t: Bucket)
    requires b.last <= now
    ensures t.last <= now < t.last + R && t.last >= b.last
    ensures exists e: nat :: t == Bucket(Min(b.tokens + e, burst), b.last + e * R)
  {
    var earned := (now - b.last) / R;
    assert b.last + earned * R <= now;
    Bucket(Min(b.tokens + earned, burst), b.last + earned * R)
  }

  /** What is left of the bucket for the next request, if this one is `k`'s and no replay; it gives a
      token for each request the gate admits, if it has one. */
  function Taken(b: Bucket, r: Request, answer: Answer, k: Key, burst: nat): (t: Bucket)
    requires b.last <= r.now
    ensures t.last <= r.now
  {
    if r.who != k || answer.Replay? then b
    else
      var t := Topped(b, r.now, burst);
      if answer.Admitted? && t.tokens > 0 then t.(tokens := t.tokens - 1) else t
  }

  ghost predicate Ordered(rs: seq<Request>) {
    forall m, n | 0 <= m < n < |rs| :: rs[m].now <= rs[n].now
  }

  /** The bucket after `n` requests: full at the start, never forgotten. */
  ghost function Ideal(rs: seq<Request>, ys: seq<Answer>, k: Key, burst: nat, n: nat): (b: Bucket)
    requires n <= |rs| == |ys| && Ordered(rs)
    ensures b.last <= Clock(rs, n)
  {
    if n == 0 then Bucket(burst, 0)
    else
      var b := Ideal(rs, ys, k, burst, n - 1);
      assert Clock(rs, n - 1) <= rs[n - 1].now;
      Taken(b, rs[n - 1], ys[n - 1], k, burst)
  }

  /** The gate admits a request of `k` for which the bucket has no token. */
  ghost predicate RefusedAt(rs: seq<Request>, ys: seq<Answer>, k: Key, burst: nat, n: nat)
    requires n < |rs| == |ys| && Ordered(rs)
  {
    assert Clock(rs, n) <= rs[n].now;
    AdmitsAt(rs, ys, k, n) && Topped(Ideal(rs, ys, k, burst, n), rs[n].now, burst).tokens == 0
  }

  /** Every request of a punctual key that the gate admits, on any run, has a token in the bucket. */
  ghost predicate Simulated(burst: nat) {
    forall xs: seq<Admission>, rs: seq<Request>, ys: seq<Answer>, k: Key, n: nat ::
      IsRun(xs, rs, ys) && n < |rs| && (forall m | 0 <= m < |rs| && rs[m].who == k :: Punctual(rs[m]))
      ==> !RefusedAt(rs, ys, k, burst, n)
  }

  // ---- a bucket of eleven keeps ahead -----------------------------------------------------------

  /** The bucket has at least the key's tokens, and one more between its own refill and the key's. */
  predicate Dominates(b: Bucket, key: KeyState) {
    if b.last <= key.lastRefill then key.lastRefill < b.last + R && b.tokens >= key.tokens
    else b.last < key.lastRefill + R && b.tokens >= key.tokens + 1
  }

  lemma RefillDominated(b: Bucket, key: KeyState, now: u64, burst: nat)
    requires Dominates(b, key) && BucketOk(key, now) && b.last <= now && burst > PER_KEY_BURST
    ensures Dominates(Topped(b, now, burst), Refill(key, now))
  {
    var e := SatSub(now, key.lastRefill) / PER_KEY_REFILL_NANOS;
    var t := Topped(b, now, burst);
    var f: nat :| t == Bucket(Min(b.tokens + f, burst), b.last + f * R);
    assert Refill(key, now).lastRefill == key.lastRefill + e * R && Refill(key, now).tokens == Min(key.tokens + e, PER_KEY_BURST);
    assert e - 1 <= f <= e + 1;
  }

  /** Since `latest`, its last admission, a token has come for every refill interval. */
  predicate Recovering(b: Bucket, latest: Request) {
    b.tokens >= PER_KEY_BURST || b.last - latest.now <= b.tokens * R
  }

  lemma ToppedRecovers(b: Bucket, latest: Request, now: u64, burst: nat)
    requires Recovering(b, latest) && b.last <= now && burst > PER_KEY_BURST
    ensures Recovering(Topped(b, now, burst), latest)
    ensures now >= latest.now + PER_KEY_BURST * R ==> Topped(b, now, burst).tokens >= PER_KEY_BURST
  {
  }

  ghost predicate Ahead(b: Bucket, a: Admission, k: Key, latest: Option<Request>, clock: u64) {
    && b.last <= clock
    && if latest.None? then k !in a.perKey && b.tokens >= PER_KEY_BURST
       else
         var l := latest.value;
         && l.now <= clock && Punctual(l) && Recovering(b, l)
         && (if k in a.perKey then Dominates(b, a.perKey[k]) && (l.ts in a.perKey[k].seen || l.ts < Cutoff(clock))
             else l.ts < Cutoff(clock))
  }

  lemma AheadThroughPrune(b: Bucket, a: Admission, k: Key, latest: Option<Request>, clock: u64, now: u64)
    requires Ahead(b, a, k, latest, clock) && clock <= now
    ensures Ahead(b, Prune(a, now), k, latest, now)
  {
    if k in a.perKey && latest.Some? && latest.value.ts in a.perKey[k].seen && latest.value.ts >= Cutoff(now) {
      assert latest.value.ts in KeptSeen(a.perKey[k].seen, now);
    }
  }

  /** A key tracked anew starts full, and so, by then, is the bucket. */
  lemma AheadOfNewcomer(b: Bucket, p: Admission, k: Key, latest: Option<Request>, now: u64, burst: nat)
    requires Ahead(b, p, k, latest, now) && k !in p.perKey && burst > PER_KEY_BURST
    ensures Topped(b, now, burst).tokens >= PER_KEY_BURST
    ensures Dominates(Topped(b, now, burst), KeyState({}, PER_KEY_BURST, now))
  {
    if latest.Some? {
      ToppedRecovers(b, latest.value, now, burst);
    }
  }

  lemma AheadByDecision(b: Bucket, p: Admission, k: Key, latest: Option<Request>, r: Request, burst: nat)
    requires Ahead(b, p, k, latest, r.now) && r.who == k && Punctual(r) && burst > PER_KEY_BURST
    requires k in p.perKey ==> BucketOk(p.perKey[k], r.now)
    ensures var (key, answer) := Decide(KeyOrNew(p, k, r.now), r.ts, r.now);
            var a' := Admission(p.perKey[k := key], if answer.Admitted? then p.index + {(r.ts, k)} else p.index);
            && (answer.Admitted? ==> Topped(b, r.now, burst).tokens > 0)
            && Ahead(Taken(b, r, answer, k, burst), a', k, if answer.Admitted? then Some(r) else latest, r.now)
  {
    if k in p.perKey {
      RefillDominated(b, p.perKey[k], r.now, burst);
      ToppedRecovers(b, latest.value, r.now, burst);
    } else {
      AheadOfNewcomer(b, p, k, latest, r.now, burst);
    }
  }

  lemma AheadByOthers(b: Bucket, p: Admission, k: Key, latest: Option<Request>, r: Request)
    requires Ahead(b, p, k, latest, r.now) && r.who != k
    ensures var (key, answer) := Decide(KeyOrNew(p, r.who, r.now), r.ts, r.now);
            var a' := Admission(p.perKey[r.who := key], if answer.Admitted? then p.index + {(r.ts, r.who)} else p.index);
            Ahead(b, a', k, latest, r.now)
  {
  }

  lemma AheadStep(b: Bucket, a: Admission, k: Key, latest: Option<Request>, clock: u64, r: Request, a': Admission,
                  answer: Answer, burst: nat)
    requires Ahead(b, a, k, latest, clock) && Sound(a, clock) && clock <= r.now && (r.who == k ==> Punctual(r))
    requires (a', answer) == Admit(a, r) && burst > PER_KEY_BURST
    ensures var admitted := r.who == k && answer == Admitted;
            && (admitted ==> Topped(b, r.now, burst).tokens > 0)
            && Ahead(Taken(b, r, answer, k, burst), a', k, if admitted then Some(r) else latest, r.now)
  {
    AheadThroughPrune(b, a, k, latest, clock, r.now);
    if r.who == k {
      AheadByDecision(b, Prune(a, r.now), k, latest, r, burst);
    } else {
      AheadByOthers(b, Prune(a, r.now), k, latest, r);
    }
  }

  lemma AheadNext(xs: seq<Admission>, rs: seq<Request>, ys: seq<Answer>, k: Key, burst: nat, n: nat,
                  b: Bucket, latest: Option<Request>, clock: u64)
    requires IsRun(xs, rs, ys) && n < |rs| && burst > PER_KEY_BURST && (rs[n].who == k ==> Punctual(rs[n]))
    requires clock == Clock(rs, n) && Ahead(b, xs[n], k, latest, clock) && Sound(xs[n], clock)
    ensures var admitted := AdmitsAt(rs, ys, k, n);
            && b.last <= rs[n].now && (admitted ==> Topped(b, rs[n].now, burst).tokens > 0)
            && Ahead(Taken(b, rs[n], ys[n], k, burst), xs[n + 1], k, if admitted then Some(rs[n]) else latest, rs[n].now)
  {
    RunAt(xs, rs, ys, n);
    AheadStep(b, xs[n], k, latest, clock, rs[n], xs[n + 1], ys[n], burst);
  }

  lemma {:induction false} AheadThroughout(xs: seq<Admission>, rs: seq<Request>, ys: seq<Answer>, k: Key, burst: nat, n: nat)
    requires IsRun(xs, rs, ys) && n <= |rs| && burst > PER_KEY_BURST
    requires forall m | 0 <= m < |rs| && rs[m].who == k :: Punctual(rs[m])
    ensures Ahead(Ideal(rs, ys, k, burst, n), xs[n], k, LastAdmitted(rs, ys, k, n), Clock(rs, n))
  {
    if n > 0 {
      AheadThroughout(xs, rs, ys, k, burst, n - 1);
      SoundThroughout(xs, rs, ys, n - 1);
      AheadNext(xs, rs, ys, k, burst, n - 1, Ideal(rs, ys, k, burst, n - 1), LastAdmitted(rs, ys, k, n - 1), Clock(rs, n - 1));
    }
  }

  lemma NeverRefused(xs: seq<Admission>, rs: seq<Request>, ys: seq<Answer>, k: Key, burst: nat, n: nat)
    requires IsRun(xs, rs, ys) && n < |rs| && burst > PER_KEY_BURST
    requires forall m | 0 <= m < |rs| && rs[m].who == k :: Punctual(rs[m])
    ensures !RefusedAt(rs, ys, k, burst, n)
  {
    AheadThroughout(xs, rs, ys, k, burst, n);
    SoundThroughout(xs, rs, ys, n);
    AheadNext(xs, rs, ys, k, burst, n, Ideal(rs, ys, k, burst, n), LastAdmitted(rs, ys, k, n), Clock(rs, n));
  }

  // ---- a bucket of ten is not enough ------------------------------------------------------------

  function LateNow(n: nat): u64
    requires n < 13
  {
    if n == 0 then 0 else if n == 1 then 60 * R + 1 else if n == 2 then 62 * R else 62 * R + 1
  }

  function LateRequest(n: nat): Request
    requires n < 13
  {
    Request(KEY, LateNow(n) + (if n >= 3 then n - 3 else 0), LateNow(n))
  }

  function LateSeen(n: nat): set<u64>
    requires 2 <= n <= 13
  {
    if n == 2 then {LateRequest(1).ts} else LateSeen(n - 1) + {LateRequest(n - 1).ts}
  }

  function LateTokens(n: nat): nat
    requires 2 <= n <= 13
  {
    if n <= 3 then 9 else 13 - n
  }

  function LateLast(n: nat): u64
    requires 2 <= n <= 13
  {
    if n == 2 then 60 * R + 1 else if n == 3 then 61 * R + 1 else 62 * R + 1
  }

  ghost function LateState(n: nat): Admission
    requires n <= 13
  {
    if n == 0 then NOBODY else if n == 1 then Solo({0}, 9, 0) else Solo(LateSeen(n), LateTokens(n), LateLast(n))
  }

  lemma {:induction false} LateSeenIs(n: nat)
    requires 2 <= n < 13
    ensures |LateSeen(n)| < n && LateRequest(n).ts !in LateSeen(n) && LateSeen(n) != {}
    ensures forall ts | ts in LateSeen(n) :: 60 * R + 1 <= ts <= LateRequest(n - 1).ts
  {
    if n > 2 {
      LateSeenIs(n - 1);
    }
  }

  lemma LateBucketStep(n: nat, seen: set<u64>)
    requires 2 <= n < 13
    ensures Refill(KeyState(seen, LateTokens(n), LateLast(n)), LateNow(n)) == KeyState(seen, LateTokens(n + 1) + 1, LateLast(n + 1))
  {
  }

  lemma LateStepWithin(n: nat, seen: set<u64>)
    requires 2 <= n < 13 && seen == LateSeen(n)
    ensures Gives(LateState(n), LateRequest(n), LateState(n + 1))
  {
    LateSeenIs(n);
    LateBucketStep(n, seen);
    SoloGives(LateState(n), LateRequest(n), LateState(n + 1), seen, LateTokens(n), LateLast(n), LateTokens(n + 1), LateLast(n + 1));
  }

  lemma LateStepAnew(n: nat)
    requires n < 2
    ensures Admit(LateState(n), LateRequest(n)) == (LateState(n + 1), Admitted)
  {
    if n == 0 {
      NobodyPruned(0);
    } else {
      SoloForgets({0}, 9, 0, LateNow(1));
    }
    NewcomerAdmitted(LateState(n), LateRequest(n));
  }

  lemma LateStep(n: nat)
    requires n < 13
    ensures Gives(LateState(n), LateRequest(n), LateState(n + 1))
  {
    if n < 2 {
      LateStepAnew(n);
    } else {
      LateStepWithin(n, LateSeen(n));
    }
  }

  /** The most a bucket of at most ten holds after `n` of these requests, and its phase. */
  function LateBucket(n: nat): Bucket
    requires 1 <= n <= 12
  {
    if n == 1 then Bucket(9, 0) else if n == 2 then Bucket(9, 60 * R) else Bucket(12 - n, 62 * R)
  }

  predicate AtMost(b: Bucket, c: Bucket) {
    b.tokens <= c.tokens && b.last == c.last
  }

  lemma LateTaken(b: Bucket, n: nat, burst: nat)
    requires 2 <= n <= 12 && AtMost(b, LateBucket(n - 1)) && burst <= PER_KEY_BURST
    ensures AtMost(Taken(b, LateRequest(n - 1), Admitted, KEY, burst), LateBucket(n))
  {
  }

  lemma {:induction false} LateIdeal(rs: seq<Request>, ys: seq<Answer>, burst: nat, n: nat)
    requires |rs| == |ys| == 13 && Ordered(rs) && burst <= PER_KEY_BURST && 1 <= n <= 12
    requires forall k | 0 <= k < 13 :: rs[k] == LateRequest(k) && ys[k] == Admitted
    ensures AtMost(Ideal(rs, ys, KEY, burst, n), LateBucket(n))
  {
    if n > 1 {
      LateIdeal(rs, ys, burst, n - 1);
      LateTaken(Ideal(rs, ys, KEY, burst, n - 1), n, burst);
    }
  }

  lemma TheLateRun() returns (xs: seq<Admission>, rs: seq<Request>, ys: seq<Answer>)
    ensures IsRun(xs, rs, ys) && |rs| == 13 && forall n | 0 <= n < 13 :: rs[n] == LateRequest(n) && ys[n] == Admitted
  {
    xs := seq(14, n requires 0 <= n < 14 => LateState(n));
    rs := seq(13, n requires 0 <= n < 13 => LateRequest(n));
    ys := seq(13, n => Admitted);
    forall n | 0 <= n < 13 ensures AnswersAt(xs, rs, ys, n) {
      LateStep(n);
      GivenIsAnswered(xs, rs, ys, n);
    }
  }

  /** A key forgotten and tracked anew has its refills later in their interval, and so finds a token where
      the bucket, full in between, has none: the thirteenth request, though none is dated behind at all. */
  lemma ForgettingCanAdmitMore(burst: nat) returns (xs: seq<Admission>, rs: seq<Request>, ys: seq<Answer>)
    requires burst <= PER_KEY_BURST
    ensures IsRun(xs, rs, ys) && |rs| == 13 && forall m | 0 <= m < |rs| :: rs[m].who == KEY && Within(rs[m], 0)
    ensures RefusedAt(rs, ys, KEY, burst, 12)
  {
    xs, rs, ys := TheLateRun();
    LateIdeal(rs, ys, burst, 12);
  }

  /** Beside a bucket that never forgets, the gate is one token ahead and no more: it never admits what
      such a bucket would refuse if and only if the bucket's burst is at least eleven. */
  lemma SimulatedExactlyFromEleven(burst: nat)
    ensures Simulated(burst) <==> burst >= PER_KEY_BURST + 1
  {
    if burst > PER_KEY_BURST {
      forall xs: seq<Admission>, rs: seq<Request>, ys: seq<Answer>, k: Key, n: nat
        | IsRun(xs, rs, ys) && n < |rs| && forall m | 0 <= m < |rs| && rs[m].who == k :: Punctual(rs[m])
        ensures !RefusedAt(rs, ys, k, burst, n)
      {
        NeverRefused(xs, rs, ys, k, burst, n);
      }
    } else {
      var xs, rs, ys := ForgettingCanAdmitMore(burst);
      assert RefusedAt(rs, ys, KEY, burst, 12);
    }
  }
}
