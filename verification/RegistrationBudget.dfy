/** The token bucket new identities are admitted from: what it grants over any interval, and when it
    refuses. */
module RegistrationBudgets {
  import opened Base

  const NEW_REGISTRATIONS_PER_HOUR: nat := 60
  const NEW_REGISTRATION_BURST: nat := 30
  const SECS_PER_TOKEN: nat := 3_600 / NEW_REGISTRATIONS_PER_HOUR

  datatype Budget = Budget(tokens: u64, lastRefill: Option<u64>)

  const FULL: Budget := Budget(NEW_REGISTRATION_BURST, None)

  function Refilled(b: Budget, now: u64): Budget {
    var last := if b.lastRefill.Some? then b.lastRefill.value else now;
    var earned := SatSub(now, last) / SECS_PER_TOKEN;
    if earned > 0 then Budget(Min(SatAdd(b.tokens, earned), NEW_REGISTRATION_BURST), Some(SatAdd(last, earned * SECS_PER_TOKEN)))
    else b.(lastRefill := Some(last))
  }

  /** The bucket after a request for a token at `now`, and whether it got one. */
  function Take(b: Budget, now: u64): (Budget, bool) {
    var b1 := Refilled(b, now);
    if b1.tokens == 0 then (b1, false) else (b1.(tokens := b1.tokens - 1), true)
  }

  class RegistrationBudget {
    var tokens: u64
    var lastRefill: Option<u64>

    function Value(): Budget
      reads this
    {
      Budget(tokens, lastRefill)
    }

    constructor ()
      ensures Value() == FULL
    {
      tokens, lastRefill := NEW_REGISTRATION_BURST, None;
    }

    method TryTake(now: u64) returns (granted: bool)
      modifies this
      ensures (Value(), granted) == Take(old(Value()), now)
    {
      var perToken := 3_600 / NEW_REGISTRATIONS_PER_HOUR;
      if lastRefill.None? {
        lastRefill := Some(now);
      }
      var last := lastRefill.value;
      var earned := SatSub(now, last) / perToken;
      if earned > 0 {
        tokens := Min(SatAdd(tokens, earned), NEW_REGISTRATION_BURST);
        lastRefill := Some(SatAdd(last, earned * perToken));
      }
      if tokens == 0 {
        return false;
      }
      tokens := tokens - 1;
      granted := true;
    }
  }

  /** Requests at `nows`, in order, the bucket between them and their answers. */
  ghost predicate IsRun(bs: seq<Budget>, nows: seq<u64>, oks: seq<bool>) {
    && |bs| == |nows| + 1 && |oks| == |nows| && bs[0] == FULL
    && (forall n | 0 <= n < |nows| :: (bs[n + 1], oks[n]) == Take(bs[n], nows[n]))
    && (forall m, n | 0 <= m < n < |nows| :: nows[m] <= nows[n])
  }

  function Clock(nows: seq<u64>, n: nat): u64
    requires n <= |nows|
  {
    if n == 0 then 0 else nows[n - 1]
  }

  /** Tokens granted at `t` or later among the first `n` requests. */
  function Granted(nows: seq<u64>, oks: seq<bool>, t: int, n: nat): nat
    requires n <= |nows| == |oks|
  {
    if n == 0 then 0
    else Granted(nows, oks, t, n - 1) + (if oks[n - 1] && nows[n - 1] >= t then 1 else 0)
  }

  function Ceil(d: int): nat {
    if d <= 0 then 0 else (d + 59) / 60
  }

  function Floor(d: int): nat {
    if d <= 0 then 0 else d / 60
  }

  /** `c` grants since `t` and the tokens left are at most a burst and the refills since `t`, and at
      least as many of those refills as fit in the bucket. */
  ghost predicate Accounted(b: Budget, c: nat, t: int, clock: u64) {
    && b.tokens <= NEW_REGISTRATION_BURST
    && (b.lastRefill.None? ==> c == 0 && b.tokens == NEW_REGISTRATION_BURST)
    && (b.lastRefill.Some? ==>
          && b.lastRefill.value <= clock
          && (c > 0 ==> b.lastRefill.value > t - 60 && c + b.tokens <= NEW_REGISTRATION_BURST + Ceil(b.lastRefill.value - t))
          && c + b.tokens >= Min(NEW_REGISTRATION_BURST, Floor(b.lastRefill.value - t)))
  }

  lemma RefillAccounted(b: Budget, c: nat, t: int, clock: u64, now: u64)
    requires Accounted(b, c, t, clock) && clock <= now
    ensures var b1 := Refilled(b, now); Accounted(b1, c, t, now) && b1.lastRefill.Some? && now - b1.lastRefill.value < 60
  {
    if b.lastRefill.Some? {
      var last := b.lastRefill.value;
      var earned := (now - last) / 60;
      assert Refilled(b, now).lastRefill == Some(last + 60 * earned);
    }
  }

  lemma TakeAccounted(b: Budget, c: nat, t: int, clock: u64, now: u64)
    requires Accounted(b, c, t, clock) && clock <= now && (c > 0 ==> t <= clock)
    ensures var (b', ok) := Take(b, now); Accounted(b', if ok && now >= t then c + 1 else c, t, now)
  {
    RefillAccounted(b, c, t, clock, now);
  }

  lemma {:induction false} AccountedThroughout(bs: seq<Budget>, nows: seq<u64>, oks: seq<bool>, t: int, n: nat)
    requires IsRun(bs, nows, oks) && n <= |nows|
    ensures Accounted(bs[n], Granted(nows, oks, t, n), t, Clock(nows, n))
    ensures Granted(nows, oks, t, n) > 0 ==> t <= Clock(nows, n)
  {
    if n > 0 {
      AccountedThroughout(bs, nows, oks, t, n - 1);
      TakeAccounted(bs[n - 1], Granted(nows, oks, t, n - 1), t, Clock(nows, n - 1), nows[n - 1]);
      assert (bs[n - 1 + 1], oks[n - 1]) == Take(bs[n - 1], nows[n - 1]);
    }
  }

  /** In any interval of length L the bucket grants at most 30 + floor((L + 59) / 60) tokens. */
  lemma GrantsAtMost(bs: seq<Budget>, nows: seq<u64>, oks: seq<bool>, t: u64, n: nat)
    requires IsRun(bs, nows, oks) && n <= |nows| && t <= Clock(nows, n)
    ensures Granted(nows, oks, t, n) <= 30 + (Clock(nows, n) - t + 59) / 60
  {
    AccountedThroughout(bs, nows, oks, t, n);
  }

  /** It refuses only when it has granted at least 30 within the last 1859 seconds. */
  lemma RefusesOnlyAfterABurst(bs: seq<Budget>, nows: seq<u64>, oks: seq<bool>, n: nat)
    requires IsRun(bs, nows, oks) && n < |nows| && !oks[n]
    ensures var now: int := nows[n]; Granted(nows, oks, now - 1859, n) >= 30
  {
    var now: int := nows[n];
    var t := now - 1859;
    AccountedThroughout(bs, nows, oks, t, n);
    RefillAccounted(bs[n], Granted(nows, oks, t, n), t, Clock(nows, n), nows[n]);
    assert (bs[n + 1], oks[n]) == Take(bs[n], nows[n]);
  }
}
