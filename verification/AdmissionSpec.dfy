/** Per-key admission of signed requests: single use, a token bucket, and a bounded memory of
    used timestamps (nanoseconds throughout). */
module AdmissionSpec {
  import opened Base

  type Key = nat

  const WINDOW_PAST_NANOS: u64 := 120_000_000_000
  const MAX_FUTURE_SKEW_NANOS: u64 := 30_000_000_000
  const PER_KEY_BURST: nat := 10
  const PER_KEY_REFILL_NANOS: u64 := 2_000_000_000
  const PER_KEY_QUOTA: nat := 160

  datatype KeyState = KeyState(seen: set<u64>, tokens: nat, lastRefill: u64)

  datatype Admission = Admission(perKey: map<Key, KeyState>, index: set<(u64, Key)>)

  datatype Answer = Admitted | Replay | TooFast(retryAfterSecs: u64) | OverQuota(retryAfterSecs: u64)

  datatype Request = Request(who: Key, ts: u64, now: u64)

  function CeilSecs(nanos: u64): u64 {
    Max((nanos + 999_999_999) / 1_000_000_000, 1)
  }

  function Cutoff(now: u64): u64 {
    SatSub(now, WINDOW_PAST_NANOS)
  }

  function KeptSeen(seen: set<u64>, now: u64): set<u64> {
    set ts | ts in seen && ts >= Cutoff(now)
  }

  /** Timestamps that left the window are forgotten, and keys with nothing left. */
  function Prune(a: Admission, now: u64): Admission {
    Admission(map k | k in a.perKey && KeptSeen(a.perKey[k].seen, now) != {} ::
                a.perKey[k].(seen := KeptSeen(a.perKey[k].seen, now)),
              set e | e in a.index && e.0 >= Cutoff(now))
  }

  function Refill(k: KeyState, now: u64): KeyState {
    var earned := SatSub(now, k.lastRefill) / PER_KEY_REFILL_NANOS;
    if earned > 0 then
      k.(tokens := Min(k.tokens + earned, PER_KEY_BURST),
         lastRefill := k.lastRefill + earned * PER_KEY_REFILL_NANOS)
    else k
  }

  function KeyOrNew(a: Admission, who: Key, now: u64): KeyState {
    if who in a.perKey then a.perKey[who] else KeyState({}, PER_KEY_BURST, now)
  }

  ghost function Oldest(seen: set<u64>): (ts: u64)
    requires seen != {}
    ensures ts in seen && forall x | x in seen :: ts <= x
  {
    Least(seen)
  }

  /** What becomes of the key and of the request, pruning done. */
  ghost function Decide(k: KeyState, ts: u64, now: u64): (KeyState, Answer) {
    if ts in k.seen then (k, Replay)
    else
      var k1 := Refill(k, now);
      if k1.tokens == 0 then
        (k1, TooFast(CeilSecs(SatSub(SatAdd(k1.lastRefill, PER_KEY_REFILL_NANOS), now))))
      else if |k1.seen| >= PER_KEY_QUOTA then
        (k1, OverQuota(CeilSecs(SatSub(SatAdd(Oldest(k1.seen), WINDOW_PAST_NANOS), now))))
      else (k1.(tokens := k1.tokens - 1, seen := k1.seen + {ts}), Admitted)
  }

  ghost function Admit(a: Admission, r: Request): (Admission, Answer) {
    var p := Prune(a, r.now);
    var (k, answer) := Decide(KeyOrNew(p, r.who, r.now), r.ts, r.now);
    (Admission(p.perKey[r.who := k], if answer.Admitted? then p.index + {(r.ts, r.who)} else p.index), answer)
  }

  /** The index is exactly the union of what the keys remember, and no key remembers nothing. */
  ghost predicate Exact(a: Admission) {
    && (forall e | e in a.index :: e.1 in a.perKey && e.0 in a.perKey[e.1].seen)
    && (forall k, ts | k in a.perKey && ts in a.perKey[k].seen :: (ts, k) in a.index)
    && (forall k | k in a.perKey :: a.perKey[k].seen != {})
  }

  ghost predicate BucketOk(k: KeyState, t: u64) {
    k.tokens <= PER_KEY_BURST && k.lastRefill <= t
  }

  ghost predicate Sound(a: Admission, t: u64) {
    Exact(a) && forall k | k in a.perKey :: BucketOk(a.perKey[k], t)
  }

  lemma PruneIsExact(a: Admission, now: u64)
    requires Exact(a)
    ensures Exact(Prune(a, now))
    ensures forall k, ts | k in a.perKey && ts in a.perKey[k].seen ::
              (k in Prune(a, now).perKey && ts in Prune(a, now).perKey[k].seen) == (ts >= Cutoff(now))
  {
    forall k, ts | k in a.perKey && ts in a.perKey[k].seen && ts >= Cutoff(now)
      ensures k in Prune(a, now).perKey && ts in Prune(a, now).perKey[k].seen
    {
      assert ts in KeptSeen(a.perKey[k].seen, now);
    }
    forall e | e in Prune(a, now).index ensures e.1 in Prune(a, now).perKey && e.0 in Prune(a, now).perKey[e.1].seen {
      assert e.0 in KeptSeen(a.perKey[e.1].seen, now);
    }
  }

  lemma DecisionKeepsBucket(k: KeyState, ts: u64, now: u64)
    requires BucketOk(k, now)
    ensures var (k', answer) := Decide(k, ts, now);
            && BucketOk(k', now)
            && k'.seen == if answer.Admitted? then k.seen + {ts} else k.seen
  {
  }

  lemma RecordKeepsExact(p: Admission, who: Key, k: KeyState, ts: u64, admitted: bool)
    requires Exact(p) && k.seen == (if who in p.perKey then p.perKey[who].seen else {}) + (if admitted then {ts} else {})
    requires k.seen != {}
    ensures Exact(Admission(p.perKey[who := k], if admitted then p.index + {(ts, who)} else p.index))
  {
  }

  /** Every request keeps the index exact and every bucket within its burst. */
  lemma AdmitKeepsSound(a: Admission, r: Request, t: u64)
    requires Sound(a, t) && t <= r.now
    ensures Sound(Admit(a, r).0, r.now)
  {
    PruneIsExact(a, r.now);
    DecisionKeepsSound(Prune(a, r.now), r);
  }

  lemma DecisionKeepsSound(p: Admission, r: Request)
    requires Sound(p, r.now)
    ensures var (k, answer) := Decide(KeyOrNew(p, r.who, r.now), r.ts, r.now);
            Sound(Admission(p.perKey[r.who := k], if answer.Admitted? then p.index + {(r.ts, r.who)} else p.index), r.now)
  {
    var k := KeyOrNew(p, r.who, r.now);
    DecisionKeepsBucket(k, r.ts, r.now);
    DecisionRemembers(k, r.ts, r.now);
    var (k', answer) := Decide(k, r.ts, r.now);
    RecordKeepsExact(p, r.who, k', r.ts, answer.Admitted?);
  }

  /** A key is tracked only once it remembers something: a newcomer is admitted. */
  lemma DecisionRemembers(k: KeyState, ts: u64, now: u64)
    requires k.seen != {} || k == KeyState({}, PER_KEY_BURST, now)
    ensures Decide(k, ts, now).0.seen != {}
  {
  }
}
