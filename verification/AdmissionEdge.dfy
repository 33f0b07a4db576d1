/** How far behind a key may date its requests before forgetting it gives it more than its rate. */
module AdmissionEdge {
  import opened Base
  import opened AdmissionSpec
  import opened AdmissionRate

  // ---- a single key -----------------------------------------------------------------------------

  const KEY: Key := 7
  const R: u64 := PER_KEY_REFILL_NANOS
  const NOBODY: Admission := Admission(map[], {})

  /** Only `KEY` is tracked. */
  ghost function Solo(seen: set<u64>, tokens: nat, last: u64): Admission {
    Admission(map[KEY := KeyState(seen, tokens, last)], set ts | ts in seen :: (ts, KEY))
  }

  lemma SoloRemembers(seen: set<u64>, tokens: nat, last: u64, now: u64)
    requires seen != {} && forall ts | ts in seen :: ts >= Cutoff(now)
    ensures Prune(Solo(seen, tokens, last), now) == Solo(seen, tokens, last)
  {
    var a := Solo(seen, tokens, last);
    assert KeptSeen(seen, now) == seen;
    assert Prune(a, now).perKey == a.perKey && Prune(a, now).index == a.index;
  }

  lemma SoloForgets(seen: set<u64>, tokens: nat, last: u64, now: u64)
    requires forall ts | ts in seen :: ts < Cutoff(now)
    ensures Prune(Solo(seen, tokens, last), now) == NOBODY
  {
    assert KeptSeen(seen, now) == {};
    assert Prune(Solo(seen, tokens, last), now).perKey == map[];
    assert Prune(Solo(seen, tokens, last), now).index == {};
  }

  /** The request is admitted and leaves `b`. */
  ghost predicate Gives(a: Admission, r: Request, b: Admission) {
    Admit(a, r) == (b, Admitted)
  }

  lemma GivenIsAnswered(xs: seq<Admission>, rs: seq<Request>, ys: seq<Answer>, n: nat)
    requires n < |rs| == |ys| && |xs| == |rs| + 1 && Gives(xs[n], rs[n], xs[n + 1]) && ys[n] == Admitted
    ensures AnswersAt(xs, rs, ys, n)
  {
  }

  /** A tracked key that finds a token and leaves `tokens1`, refilled last at `last1`. */
  lemma SoloGives(a: Admission, r: Request, b: Admission, seen: set<u64>, tokens: nat, last: u64, tokens1: nat, last1: u64)
    requires a == Solo(seen, tokens, last) && b == Solo(seen + {r.ts}, tokens1, last1) && r.who == KEY
    requires seen != {} && |seen| < PER_KEY_QUOTA && r.ts !in seen && forall ts | ts in seen :: ts >= Cutoff(r.now)
    requires Refill(KeyState(seen, tokens, last), r.now) == KeyState(seen, tokens1 + 1, last1)
    ensures Gives(a, r, b)
  {
    SoloAdmits(seen, tokens, last, r);
  }

  /** A tracked key with a token to spend. */
  lemma SoloAdmits(seen: set<u64>, tokens: nat, last: u64, r: Request)
    requires r.who == KEY && seen != {} && (forall ts | ts in seen :: ts >= Cutoff(r.now)) && r.ts !in seen
    requires Refill(KeyState(seen, tokens, last), r.now).tokens > 0 && |seen| < PER_KEY_QUOTA
    ensures var k := Refill(KeyState(seen, tokens, last), r.now);
            Admit(Solo(seen, tokens, last), r) == (Solo(seen + {r.ts}, k.tokens - 1, k.lastRefill), Admitted)
  {
    SoloRemembers(seen, tokens, last, r.now);
    var k := Refill(KeyState(seen, tokens, last), r.now);
    var (a', answer) := Admit(Solo(seen, tokens, last), r);
    assert a'.perKey == map[KEY := KeyState(seen + {r.ts}, k.tokens - 1, k.lastRefill)];
    assert a'.index == Solo(seen + {r.ts}, k.tokens - 1, k.lastRefill).index;
  }

  /** A key not tracked, or forgotten by this very request. */
  lemma NewcomerAdmitted(a: Admission, r: Request)
    requires r.who == KEY && Prune(a, r.now) == NOBODY
    ensures Admit(a, r) == (Solo({r.ts}, PER_KEY_BURST - 1, r.now), Admitted)
  {
    var (a', answer) := Admit(a, r);
    assert a'.perKey == map[KEY := KeyState({r.ts}, PER_KEY_BURST - 1, r.now)];
    assert a'.index == Solo({r.ts}, PER_KEY_BURST - 1, r.now).index;
  }

  lemma NewcomerGives(a: Admission, r: Request, b: Admission)
    requires r.who == KEY && Prune(a, r.now) == NOBODY && b == Solo({r.ts}, PER_KEY_BURST - 1, r.now)
    ensures Gives(a, r, b)
  {
    NewcomerAdmitted(a, r);
  }

  lemma NobodyPruned(now: u64)
    ensures Prune(NOBODY, now) == NOBODY
  {
    assert Prune(NOBODY, now).perKey == map[] && Prune(NOBODY, now).index == {};
  }

  // ---- the run that passes the bound ----------------------------------------------------------

  /** One nanosecond past the edge. */
  const LAG: u64 := 100_000_000_002
  const A: u64 := 1_000_000_000_000

  /** One request to start the bucket's phase at `A`; ten just before its second refill and one at it; one
      at the third; and ten when the last of these is forgotten, a nanosecond before the thirteenth. */
  function NowOf(n: nat): u64
    requires n < 23
  {
    if n == 0 then A else if n <= 10 then A + 2 * R - 1 else if n == 11 then A + 2 * R
    else if n == 12 then A + 3 * R else A + 13 * R - 1
  }

  /** Every request is dated at most `LAG` behind, and later than the one before. */
  function TsOf(n: nat): u64
    requires n < 23
  {
    NowOf(n) - LAG + (if 1 <= n <= 10 then n - 1 else if n == 11 then 20 else if n >= 13 then n - 13 else 0)
  }

  function RequestOf(n: nat): Request
    requires n < 23
  {
    Request(KEY, TsOf(n), NowOf(n))
  }

  /** The timestamps from request `a` up to, not including, `n`. */
  function SeenFrom(a: nat, n: nat): set<u64>
    requires a <= n <= 23
    decreases n
  {
    if n == a then {} else SeenFrom(a, n - 1) + {TsOf(n - 1)}
  }

  function TokensOf(n: nat): nat
    requires 1 <= n <= 23
  {
    if n == 1 then 9 else if n <= 11 then 11 - n else if n <= 13 then 0 else 23 - n
  }

  function LastOf(n: nat): u64
    requires 1 <= n <= 23
  {
    if n == 1 then A else if n <= 11 then A + R else if n == 12 then A + 2 * R else if n == 13 then A + 3 * R else A + 13 * R - 1
  }

  ghost function StateOf(n: nat): Admission
    requires n <= 23
  {
    if n == 0 then NOBODY else Solo(SeenFrom(if n <= 13 then 0 else 13, n), TokensOf(n), LastOf(n))
  }

  lemma TsGrows(m: nat, n: nat)
    requires m < n < 23
    ensures TsOf(m) < TsOf(n)
  {
  }

  lemma {:induction false} SeenBetween(a: nat, n: nat)
    requires a < n < 23
    ensures SeenFrom(a, n) != {} && |SeenFrom(a, n)| <= n - a && TsOf(n) !in SeenFrom(a, n)
    ensures forall ts | ts in SeenFrom(a, n) :: TsOf(a) <= ts <= TsOf(n - 1)
    decreases n
  {
    TsGrows(n - 1, n);
    if a < n - 1 {
      SeenBetween(a, n - 1);
    }
  }

  lemma BucketStep(n: nat, seen: set<u64>)
    requires 1 <= n < 23 && n != 13
    ensures var k := Refill(KeyState(seen, TokensOf(n), LastOf(n)), NowOf(n));
            k == KeyState(seen, TokensOf(n + 1) + 1, LastOf(n + 1))
  {
  }

  lemma RecordedFrom(n: nat, a: nat, seen: set<u64>)
    requires 1 <= n < 23 && n != 13 && a == (if n <= 13 then 0 else 13) && seen == SeenFrom(a, n)
    ensures StateOf(n) == Solo(seen, TokensOf(n), LastOf(n))
    ensures StateOf(n + 1) == Solo(seen + {TsOf(n)}, TokensOf(n + 1), LastOf(n + 1))
  {
  }

  lemma InWindow(n: nat, a: nat, seen: set<u64>)
    requires 1 <= n < 23 && n != 13 && a == (if n <= 13 then 0 else 13) && seen == SeenFrom(a, n)
    ensures seen != {} && |seen| < PER_KEY_QUOTA && TsOf(n) !in seen && forall ts | ts in seen :: ts >= Cutoff(NowOf(n))
  {
    SeenBetween(a, n);
    assert TsOf(a) >= Cutoff(NowOf(n));
  }

  /** Within one record: the bucket has a token whenever a request comes. */
  lemma StepWithin(n: nat)
    requires 1 <= n < 23 && n != 13
    ensures Gives(StateOf(n), RequestOf(n), StateOf(n + 1))
  {
    var a := if n <= 13 then 0 else 13;
    var seen := SeenFrom(a, n);
    InWindow(n, a, seen);
    BucketStep(n, seen);
    RecordedFrom(n, a, seen);
    SoloGives(StateOf(n), RequestOf(n), StateOf(n + 1), seen, TokensOf(n), LastOf(n), TokensOf(n + 1), LastOf(n + 1));
  }

  lemma RecordedAnew(n: nat)
    requires n == 0 || n == 13
    ensures StateOf(n + 1) == Solo({TsOf(n)}, PER_KEY_BURST - 1, NowOf(n))
  {
    assert SeenFrom(n, n + 1) == {TsOf(n)};
  }

  lemma AllForgotten(n: nat, seen: set<u64>)
    requires n == 13 && seen == SeenFrom(0, n)
    ensures Prune(Solo(seen, TokensOf(n), LastOf(n)), NowOf(n)) == NOBODY
  {
    SeenBetween(0, n);
    assert TsOf(n - 1) < Cutoff(NowOf(n));
    SoloForgets(seen, TokensOf(n), LastOf(n), NowOf(n));
  }

  /** The first request, and the first after everything was forgotten. */
  lemma StepAnew(n: nat)
    requires n == 0 || n == 13
    ensures Gives(StateOf(n), RequestOf(n), StateOf(n + 1))
  {
    NobodyPruned(NowOf(n));
    if n == 13 {
      AllForgotten(n, SeenFrom(0, n));
    }
    RecordedAnew(n);
    NewcomerGives(StateOf(n), RequestOf(n), StateOf(n + 1));
  }

  lemma AllAdmitted(n: nat)
    requires n < 23
    ensures Gives(StateOf(n), RequestOf(n), StateOf(n + 1))
  {
    if n == 0 || n == 13 {
      StepAnew(n);
    } else {
      StepWithin(n);
    }
  }

  lemma {:induction false} CountOf(rs: seq<Request>, ys: seq<Answer>, n: nat)
    requires |rs| == |ys| == 23 && n <= 23 && forall k | 0 <= k < 23 :: rs[k] == RequestOf(k) && ys[k] == Admitted
    ensures Count(rs, ys, KEY, A + 2 * R - 1, n) == if n == 0 then 0 else n - 1
  {
    if n > 0 {
      CountOf(rs, ys, n - 1);
    }
  }

  ghost predicate WithinBound(rs: seq<Request>, ys: seq<Answer>, k: Key, t: u64, n: nat)
    requires n <= |rs| == |ys|
  {
    t <= Clock(rs, n) ==> Count(rs, ys, k, t, n) <= 10 + (Clock(rs, n) - t + R - 1) / R
  }

  /** Twenty-two admissions in eleven refill intervals, one more than the rate allows, by requests dated
      at most 100 s and 2 ns behind. */
  lemma BeyondTheEdge() returns (xs: seq<Admission>, rs: seq<Request>, ys: seq<Answer>)
    ensures IsRun(xs, rs, ys) && |rs| == 23 && forall m | 0 <= m < |rs| :: Within(rs[m], LAG)
    ensures !WithinBound(rs, ys, KEY, A + 2 * R - 1, 23)
  {
    xs := seq(24, n requires 0 <= n < 24 => StateOf(n));
    rs := seq(23, n requires 0 <= n < 23 => RequestOf(n));
    ys := seq(23, n => Admitted);
    forall n | 0 <= n < 23 ensures AnswersAt(xs, rs, ys, n) {
      AllAdmitted(n);
      GivenIsAnswered(xs, rs, ys, n);
    }
    CountOf(rs, ys, 23);
  }

  /** Does every run keep every key to its rate that dates its requests at most `lag` behind? */
  ghost predicate RateHolds(lag: u64) {
    forall xs: seq<Admission>, rs: seq<Request>, ys: seq<Answer>, k: Key, t: u64, n: nat ::
      IsRun(xs, rs, ys) && n <= |rs| && (forall m | 0 <= m < |rs| && rs[m].who == k :: Within(rs[m], lag))
      ==> WithinBound(rs, ys, k, t, n)
  }

  /** The exact edge: forgetting never gives a key more than its rate if and only if keys date their
      requests at most 100 s and 1 ns behind. */
  lemma RateHoldsExactlyUpToTheEdge(lag: u64)
    ensures RateHolds(lag) <==> lag <= MAX_LAG_NANOS
  {
    if lag <= MAX_LAG_NANOS {
      forall xs: seq<Admission>, rs: seq<Request>, ys: seq<Answer>, k: Key, t: u64, n: nat
        | IsRun(xs, rs, ys) && n <= |rs| && forall m | 0 <= m < |rs| && rs[m].who == k :: Within(rs[m], lag)
        ensures WithinBound(rs, ys, k, t, n)
      {
        if 0 < n && t <= Clock(rs, n) {
          AdmittedAtMost(xs, rs, ys, k, t, n);
        }
      }
    } else {
      var xs, rs, ys := BeyondTheEdge();
      assert !WithinBound(rs, ys, KEY, A + 2 * R - 1, 23);
    }
  }
}
