/** Admission as it runs: per-key records and a time-ordered index, changed in place. */
module AdmissionGates {
  import opened Base
  import opened S = AdmissionSpec

  predicate Before(x: (u64, Key), y: (u64, Key)) {
    x.0 < y.0 || (x.0 == y.0 && x.1 <= y.1)
  }

  /** The oldest entry of the index. */
  method First(index: set<(u64, Key)>) returns (e: (u64, Key))
    requires index != {}
    ensures e in index && forall x | x in index :: Before(e, x)
  {
    e :| e in index;
    var todo := index - {e};
    while todo != {}
      invariant todo <= index && e in index
      invariant forall x | x in index && x !in todo :: Before(e, x)
      decreases todo
    {
      var x :| x in todo;
      if !Before(e, x) {
        e := x;
      }
      todo := todo - {x};
    }
  }

  /** Pruning under way: everything popped so far was older than the cutoff. */
  ghost predicate Popping(a: Admission, b: Admission, now: u64) {
    && Exact(b)
    && b.index <= a.index
    && (forall e | e in a.index && e !in b.index :: e.0 < Cutoff(now))
    && (forall k | k in b.perKey :: k in a.perKey && b.perKey[k] == a.perKey[k].(seen := b.perKey[k].seen))
  }

  lemma PopOne(a: Admission, b: Admission, e: (u64, Key), c: Admission, now: u64)
    requires Popping(a, b, now) && e in b.index && e.0 < Cutoff(now)
    requires c.index == b.index - {e}
    requires var left := b.perKey[e.1].seen - {e.0};
             c.perKey == if left == {} then b.perKey - {e.1} else b.perKey[e.1 := b.perKey[e.1].(seen := left)]
    ensures Popping(a, c, now)
  {
    forall k, ts | k in c.perKey && ts in c.perKey[k].seen ensures (ts, k) in c.index {
      assert (ts, k) in b.index;
    }
    forall x | x in c.index ensures x.1 in c.perKey && x.0 in c.perKey[x.1].seen {
      assert x.0 in b.perKey[x.1].seen;
      if x.1 == e.1 {
        assert x == (x.0, x.1) && e == (e.0, e.1);
        assert x.0 in b.perKey[e.1].seen - {e.0};
      }
    }
  }

  lemma PoppedAll(a: Admission, b: Admission, now: u64)
    requires Exact(a) && Popping(a, b, now) && forall e | e in b.index :: e.0 >= Cutoff(now)
    ensures b == Prune(a, now)
  {
    var p := Prune(a, now);
    PruneIsExact(a, now);
    assert b.index == p.index;
    forall k | k in b.perKey ensures k in p.perKey && b.perKey[k] == p.perKey[k] {
      var ts :| ts in b.perKey[k].seen;
      assert (ts, k) in b.index;
      assert forall x :: x in b.perKey[k].seen <==> (x, k) in b.index;
      assert forall x :: x in KeptSeen(a.perKey[k].seen, now) <==> (x, k) in p.index;
      assert b.perKey[k].seen == KeptSeen(a.perKey[k].seen, now);
    }
    forall k | k in p.perKey ensures k in b.perKey {
      var ts :| ts in p.perKey[k].seen;
      assert (ts, k) in p.index;
    }
  }

  class AdmissionGate {
    var perKey: map<Key, KeyState>
    var index: set<(u64, Key)>

    function Value(): Admission
      reads this
    {
      Admission(perKey, index)
    }

    constructor ()
      ensures Value() == Admission(map[], {}) && Exact(Value())
    {
      perKey, index := map[], {};
    }

    /** Oldest first, stopping at the first timestamp still inside the window. */
    method Prune(now: u64)
      requires Exact(Value())
      modifies this
      ensures Value() == S.Prune(old(Value()), now) && Exact(Value())
    {
      ghost var a := Value();
      var cutoff := SatSub(now, WINDOW_PAST_NANOS);
      while index != {}
        invariant Popping(a, Value(), now)
        decreases index
      {
        var e := First(index);
        if e.0 >= cutoff {
          break;
        }
        ghost var b := Value();
        index := index - {e};
        if e.1 in perKey {
          var k := perKey[e.1];
          k := k.(seen := k.seen - {e.0});
          perKey := if k.seen == {} then perKey - {e.1} else perKey[e.1 := k];
        }
        PopOne(a, b, e, Value(), now);
      }
      PoppedAll(a, Value(), now);
    }

    /** Refill the bucket by whole intervals, never above the burst. */
    method RefillKey(k: KeyState, now: u64) returns (key: KeyState)
      ensures key == S.Refill(k, now)
    {
      key := k;
      var earned := SatSub(now, key.lastRefill) / PER_KEY_REFILL_NANOS;
      if earned > 0 {
        key := key.(tokens := Min(key.tokens + earned, PER_KEY_BURST),
                    lastRefill := key.lastRefill + earned * PER_KEY_REFILL_NANOS);
      }
    }

    /** Replay, rate and quota checks on one key, spending a token if all pass. */
    method UseKey(k: KeyState, ts: u64, now: u64) returns (key: KeyState, answer: Answer)
      ensures (key, answer) == S.Decide(k, ts, now)
    {
      key := k;
      if ts in key.seen {
        return key, Replay;
      }
      key := RefillKey(key, now);
      if key.tokens == 0 {
        var next := SatAdd(key.lastRefill, PER_KEY_REFILL_NANOS);
        return key, TooFast(CeilSecs(SatSub(next, now)));
      }
      if |key.seen| >= PER_KEY_QUOTA {
        var oldest := FindLeast(key.seen);
        assert oldest == Oldest(key.seen);
        return key, OverQuota(CeilSecs(SatSub(SatAdd(oldest, WINDOW_PAST_NANOS), now)));
      }
      return key.(tokens := key.tokens - 1, seen := key.seen + {ts}), Admitted;
    }

    method Admit(r: Request) returns (answer: Answer)
      requires Exact(Value())
      modifies this
      ensures (Value(), answer) == S.Admit(old(Value()), r)
    {
      Prune(r.now);
      var key := if r.who in perKey then perKey[r.who] else KeyState({}, PER_KEY_BURST, r.now);
      key, answer := UseKey(key, r.ts, r.now);
      perKey := perKey[r.who := key];
      if answer.Admitted? {
        index := index + {(r.ts, r.who)};
      }
    }
  }
}
