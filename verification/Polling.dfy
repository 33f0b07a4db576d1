/** The event loop of the pool coordinator: the first-in-first-out set of dispatched events, and the
    overlapping windows of blocks it polls. */
module Polling {
  import opened Base

  /** A transaction hash and a log index. */
  type Key = nat

  const SEEN_EVENTS_CAP: nat := 10_000

  // ---- the dedup set --------------------------------------------------------------------------

  ghost predicate Distinct(s: seq<Key>) {
    forall i, j | 0 <= i < j < |s| :: s[i] != s[j]
  }

  /** The last `n` of a sequence, or all of it. */
  function Last(s: seq<Key>, n: nat): seq<Key> {
    if |s| <= n then s else s[|s| - n..]
  }

  /** How many keys are remembered: a set of capacity 0 still holds the key it was just given. */
  function Room(cap: nat): nat {
    if cap == 0 then 1 else cap
  }

  /** The queue after a key was offered. */
  function Offered(order: seq<Key>, cap: nat, k: Key): seq<Key> {
    if k in order then order else Last(order + [k], Room(cap))
  }

  /** The membership set is the queue's, and the queue has no key twice. */
  ghost predicate Tracks(keys: set<Key>, order: seq<Key>) {
    (forall k :: k in keys <==> k in order) && Distinct(order) && |keys| == |order|
  }

  lemma TracksWithoutOldest(keys: set<Key>, order: seq<Key>)
    requires Tracks(keys, order) && order != []
    ensures Tracks(keys - {order[0]}, order[1..])
  {
    forall k ensures k in keys - {order[0]} <==> k in order[1..] {
      if k in order[1..] {
        var i :| 0 <= i < |order[1..]| && order[1..][i] == k;
        assert order[i + 1] == k;
      }
    }
  }

  lemma TracksWith(keys: set<Key>, order: seq<Key>, k: Key)
    requires Tracks(keys, order) && k !in order
    ensures Tracks(keys + {k}, order + [k])
  {
  }

  lemma EvictedIsLast(was: seq<Key>, order: seq<Key>, cap: nat, k: Key)
    requires |order| <= |was| && order == was[|was| - |order|..]
    requires (|order| < |was| ==> |order| + 1 >= cap) && (|order| < cap || order == [])
    ensures order + [k] == Last(was + [k], Room(cap))
  {
  }

  class SeenEvents {
    var keys: set<Key>
    var order: seq<Key>
    const cap: nat

    ghost predicate Valid()
      reads this
    {
      Tracks(keys, order) && |order| <= Room(cap)
    }

    constructor (cap: nat)
      ensures Valid() && order == [] && this.cap == cap
    {
      keys, order, this.cap := {}, [], cap;
    }

    method Insert(key: Key) returns (isNew: bool)
      requires Valid()
      modifies this
      ensures Valid() && isNew == (key !in old(order)) && order == Offered(old(order), cap, key)
    {
      if key in keys { return false; }
      ghost var was := order;
      while |keys| >= cap
        invariant Tracks(keys, order) && key !in order
        invariant |order| <= |was| && order == was[|was| - |order|..]
        invariant |order| < |was| ==> |order| + 1 >= cap
        decreases |order|
      {
        if order == [] { break; }
        var oldest := order[0];
        TracksWithoutOldest(keys, order);
        order := order[1..];
        keys := keys - {oldest};
      }
      EvictedIsLast(was, order, cap, key);
      TracksWith(keys, order, key);
      order := order + [key];
      keys := keys + {key};
      isNew := true;
    }
  }

  // ---- one tick -------------------------------------------------------------------------------

  /** What the node answers in one tick: its latest block and the events of the window, or failures. */
  datatype Answer = Answer(latest: Option<u64>, events: Option<seq<Key>>)

  /** The last block scanned, the queue of the dedup set, and every event handed to a handler so far. */
  datatype Poller = Poller(lastBlock: u64, order: seq<Key>, dispatched: seq<Key>)

  function From(lastBlock: u64, buffer: u64): u64 {
    Max(SatSub(lastBlock, buffer), 1)
  }

  predicate Advances(p: Poller, a: Answer) {
    a.latest.Some? && a.latest.value > p.lastBlock && a.events.Some?
  }

  function Dispatch(p: Poller, cap: nat, events: seq<Key>): Poller
    decreases |events|
  {
    if events == [] then p
    else
      var k := events[0];
      var p1 := p.(order := Offered(p.order, cap, k), dispatched := if k in p.order then p.dispatched else p.dispatched + [k]);
      Dispatch(p1, cap, events[1..])
  }

  /** A tick that fails anywhere leaves the loop where it was. */
  function Tick(p: Poller, cap: nat, a: Answer): Poller {
    if Advances(p, a) then Dispatch(p, cap, a.events.value).(lastBlock := a.latest.value) else p
  }

  class EventLoop {
    var lastBlock: u64
    const seen: SeenEvents
    const buffer: u64
    var dispatched: seq<Key>

    ghost predicate Valid()
      reads this, seen
    {
      seen.Valid()
    }

    ghost function Value(): Poller
      reads this, seen
    {
      Poller(lastBlock, seen.order, dispatched)
    }

    constructor (start: u64, buffer: u64)
      ensures Valid() && fresh(seen) && Value() == Poller(start, [], []) && this.buffer == buffer
      ensures seen.cap == SEEN_EVENTS_CAP
    {
      lastBlock, this.buffer, dispatched := start, buffer, [];
      seen := new SeenEvents(SEEN_EVENTS_CAP);
    }

    method OnePoll(a: Answer) returns (scanned: Option<(u64, u64)>)
      requires Valid()
      modifies this, seen
      ensures Valid() && Value() == Tick(old(Value()), seen.cap, a)
      ensures scanned == if Advances(old(Value()), a) then Some((From(old(lastBlock), buffer), a.latest.value)) else None
    {
      if a.latest.None? || a.latest.value <= lastBlock { return None; }
      var from := Max(SatSub(lastBlock, buffer), 1);
      if a.events.None? { return None; }
      var events := a.events.value;
      ghost var p0 := Value();
      for i := 0 to |events|
        invariant Valid() && lastBlock == old(lastBlock)
        invariant Dispatch(p0, seen.cap, events) == Dispatch(Value(), seen.cap, events[i..])
      {
        var isNew := seen.Insert(events[i]);
        if isNew {
          dispatched := dispatched + [events[i]];
        }
      }
      DispatchKeepsBlock(p0, seen.cap, events);
      lastBlock := a.latest.value;
      scanned := Some((from, a.latest.value));
    }
  }

  lemma {:induction false} DispatchKeepsBlock(p: Poller, cap: nat, events: seq<Key>)
    ensures Dispatch(p, cap, events).lastBlock == p.lastBlock
    decreases |events|
  {
    if events != [] {
      var k := events[0];
      var p1 := p.(order := Offered(p.order, cap, k), dispatched := if k in p.order then p.dispatched else p.dispatched + [k]);
      DispatchKeepsBlock(p1, cap, events[1..]);
    }
  }

  // ---- runs -----------------------------------------------------------------------------------

  /** The states the loop goes through, whatever the node answers and however often it fails. */
  ghost predicate IsRun(ps: seq<Poller>, answers: seq<Answer>, start: u64, cap: nat) {
    && |ps| == |answers| + 1 && ps[0] == Poller(start, [], [])
    && forall n | 0 <= n < |answers| :: ps[n + 1] == Tick(ps[n], cap, answers[n])
  }

  /** Does tick `n` scan block `b`? */
  ghost predicate Scans(ps: seq<Poller>, answers: seq<Answer>, buffer: u64, n: nat, b: u64)
    requires n < |ps| && n < |answers|
  {
    Advances(ps[n], answers[n]) && From(ps[n].lastBlock, buffer) <= b <= answers[n].latest.value
  }

  lemma TickAt(ps: seq<Poller>, answers: seq<Answer>, start: u64, cap: nat, n: nat)
    requires IsRun(ps, answers, start, cap) && n < |answers|
    ensures ps[n + 1] == Tick(ps[n], cap, answers[n])
    ensures ps[n + 1].lastBlock == if Advances(ps[n], answers[n]) then answers[n].latest.value else ps[n].lastBlock
  {
  }

  /** Gap-free: every block between the start and the last block has been scanned by some tick. */
  lemma {:induction false} EveryBlockScanned(ps: seq<Poller>, answers: seq<Answer>, start: u64, cap: nat, buffer: u64,
                                             n: nat, b: u64)
    returns (m: nat)
    requires IsRun(ps, answers, start, cap) && n <= |answers| && start < b <= ps[n].lastBlock
    ensures m < n && Scans(ps, answers, buffer, m, b)
  {
    TickAt(ps, answers, start, cap, n - 1);
    if b <= ps[n - 1].lastBlock {
      m := EveryBlockScanned(ps, answers, start, cap, buffer, n - 1, b);
    } else {
      m := n - 1;
    }
  }

  /** A block already passed is scanned again by exactly the advancing ticks that start no more than
      `buffer` blocks past it. */
  lemma RescannedWhileWithinBuffer(ps: seq<Poller>, answers: seq<Answer>, start: u64, cap: nat, buffer: u64, n: nat, b: u64)
    requires IsRun(ps, answers, start, cap) && n < |answers| && 1 <= b <= ps[n].lastBlock
    ensures Scans(ps, answers, buffer, n, b) <==> Advances(ps[n], answers[n]) && ps[n].lastBlock <= b + buffer
  {
  }

  // ---- dispatching ------------------------------------------------------------------------------

  /** The queue is exactly the latest dispatches, as many as fit, and none of them twice. */
  ghost predicate Remembers(p: Poller, cap: nat) {
    && p.order == Last(p.dispatched, Room(cap))
    && forall i, j | 0 <= i < j < |p.dispatched| && p.dispatched[i] == p.dispatched[j] :: j - i > Room(cap)
  }

  lemma RecentIsQueued(p: Poller, cap: nat, i: nat)
    requires Remembers(p, cap) && i < |p.dispatched|
    ensures |p.dispatched| - i <= Room(cap) ==> p.dispatched[i] in p.order
  {
    var skipped := |p.dispatched| - |p.order|;
    if i >= skipped {
      assert p.order[i - skipped] == p.dispatched[i];
    }
  }

  lemma OfferRemembers(p: Poller, cap: nat, k: Key, p1: Poller)
    requires Remembers(p, cap)
    requires p1 == p.(order := Offered(p.order, cap, k), dispatched := if k in p.order then p.dispatched else p.dispatched + [k])
    ensures Remembers(p1, cap) && p.dispatched <= p1.dispatched && k in p1.dispatched
  {
    if k !in p.order {
      var n := |p.dispatched|;
      forall i | 0 <= i < n && p.dispatched[i] == k ensures n - i > Room(cap) {
        RecentIsQueued(p, cap, i);
      }
      assert Last(p.order + [k], Room(cap)) == Last(p1.dispatched, Room(cap));
    }
  }

  lemma {:induction false} DispatchRemembers(p: Poller, cap: nat, events: seq<Key>)
    requires Remembers(p, cap)
    ensures var p' := Dispatch(p, cap, events);
            Remembers(p', cap) && p.dispatched <= p'.dispatched && forall k | k in events :: k in p'.dispatched
    decreases |events|
  {
    if events != [] {
      var k := events[0];
      var p1 := p.(order := Offered(p.order, cap, k), dispatched := if k in p.order then p.dispatched else p.dispatched + [k]);
      OfferRemembers(p, cap, k, p1);
      DispatchRemembers(p1, cap, events[1..]);
    }
  }

  lemma {:induction false} RemembersThroughout(ps: seq<Poller>, answers: seq<Answer>, start: u64, cap: nat, n: nat)
    requires IsRun(ps, answers, start, cap) && n <= |answers|
    ensures Remembers(ps[n], cap)
  {
    if n > 0 {
      RemembersThroughout(ps, answers, start, cap, n - 1);
      TickAt(ps, answers, start, cap, n - 1);
      if Advances(ps[n - 1], answers[n - 1]) {
        DispatchRemembers(ps[n - 1], cap, answers[n - 1].events.value);
      }
    }
  }

  /** On every run the queue holds exactly the last `cap` dispatches, and an event is dispatched
      again only after at least `cap` other dispatches. */
  lemma DispatchedAgainOnlyAfterCap(ps: seq<Poller>, answers: seq<Answer>, start: u64, cap: nat, n: nat, i: nat, j: nat)
    requires IsRun(ps, answers, start, cap) && n <= |answers|
    ensures ps[n].order == Last(ps[n].dispatched, Room(cap)) && |ps[n].order| <= Room(cap) && Distinct(ps[n].order)
    ensures i < j < |ps[n].dispatched| && ps[n].dispatched[i] == ps[n].dispatched[j] ==> j - i - 1 >= cap
  {
    RemembersThroughout(ps, answers, start, cap, n);
    var d, q := ps[n].dispatched, ps[n].order;
    forall x, y | 0 <= x < y < |q| ensures q[x] != q[y] {
      assert q[x] == d[|d| - |q| + x] && q[y] == d[|d| - |q| + y];
    }
  }

  /** Every event the node reports to an advancing tick has been dispatched once that tick is over. */
  lemma ReportedIsDispatched(ps: seq<Poller>, answers: seq<Answer>, start: u64, cap: nat, n: nat, k: Key)
    requires IsRun(ps, answers, start, cap) && n < |answers| && Advances(ps[n], answers[n]) && k in answers[n].events.value
    ensures k in ps[n + 1].dispatched
  {
    RemembersThroughout(ps, answers, start, cap, n);
    TickAt(ps, answers, start, cap, n);
    DispatchRemembers(ps[n], cap, answers[n].events.value);
  }

  // ---- the whole loop, told from the answers alone --------------------------------------------

  /** An answer that gives both a head past `last` and the events. */
  predicate Newer(last: u64, a: Answer) {
    a.latest.Some? && last < a.latest.value && a.events.Some?
  }

  /** The highest head of which the events came too, `start` if none. */
  function Highest(answers: seq<Answer>, start: u64, n: nat): u64
    requires n <= |answers|
  {
    if n == 0 then start
    else
      var last := Highest(answers, start, n - 1);
      if Newer(last, answers[n - 1]) then answers[n - 1].latest.value else last
  }

  /** Is the event among the last `cap` dispatches (or, of capacity 0, the very last)? */
  predicate Recently(handed: seq<Key>, cap: nat, k: Key) {
    exists i | 0 <= i < |handed| :: handed[i] == k && |handed| - i <= Max(cap, 1)
  }

  /** Events handed on in the order reported, but for those handed on recently. */
  function HandOn(handed: seq<Key>, cap: nat, events: seq<Key>): seq<Key>
    decreases |events|
  {
    if events == [] then handed
    else HandOn(if Recently(handed, cap, events[0]) then handed else handed + [events[0]], cap, events[1..])
  }

  function HandedOn(answers: seq<Answer>, start: u64, cap: nat, n: nat): seq<Key>
    requires n <= |answers|
  {
    if n == 0 then []
    else
      var handed := HandedOn(answers, start, cap, n - 1);
      if Newer(Highest(answers, start, n - 1), answers[n - 1]) then HandOn(handed, cap, answers[n - 1].events.value) else handed
  }

  lemma QueuedIffRecent(p: Poller, cap: nat, k: Key)
    requires Remembers(p, cap)
    ensures k in p.order <==> Recently(p.dispatched, cap, k)
  {
    var d, q := p.dispatched, p.order;
    if k in q {
      var i :| 0 <= i < |q| && q[i] == k;
      assert d[|d| - |q| + i] == k;
    }
    if i :| 0 <= i < |d| && d[i] == k && |d| - i <= Max(cap, 1) {
      RecentIsQueued(p, cap, i);
    }
  }

  lemma {:induction false} DispatchHandsOn(p: Poller, cap: nat, events: seq<Key>)
    requires Remembers(p, cap)
    ensures Dispatch(p, cap, events).dispatched == HandOn(p.dispatched, cap, events)
    decreases |events|
  {
    if events != [] {
      var k := events[0];
      var p1 := p.(order := Offered(p.order, cap, k), dispatched := if k in p.order then p.dispatched else p.dispatched + [k]);
      OfferRemembers(p, cap, k, p1);
      QueuedIffRecent(p, cap, k);
      DispatchHandsOn(p1, cap, events[1..]);
    }
  }

  /** On every run the loop stands at the highest head it had the events for, and has handed on exactly the events
      reported by answers that moved it there, in order, each but those among its last `cap` dispatches. */
  lemma {:induction false} LoopIsItsAnswers(ps: seq<Poller>, answers: seq<Answer>, start: u64, cap: nat, n: nat)
    requires IsRun(ps, answers, start, cap) && n <= |answers|
    ensures ps[n].lastBlock == Highest(answers, start, n) && ps[n].dispatched == HandedOn(answers, start, cap, n)
  {
    if n > 0 {
      LoopIsItsAnswers(ps, answers, start, cap, n - 1);
      RemembersThroughout(ps, answers, start, cap, n - 1);
      TickAt(ps, answers, start, cap, n - 1);
      TickHandsOn(ps[n - 1], cap, answers[n - 1]);
    }
  }

  lemma TickHandsOn(p: Poller, cap: nat, a: Answer)
    requires Remembers(p, cap)
    ensures Tick(p, cap, a).dispatched == if Newer(p.lastBlock, a) then HandOn(p.dispatched, cap, a.events.value) else p.dispatched
  {
    if Advances(p, a) {
      DispatchHandsOn(p, cap, a.events.value);
    }
  }

  /** And a tick scans exactly the blocks from `buffer` before that head, never block 0, to the newer one. */
  lemma ScansExactly(ps: seq<Poller>, answers: seq<Answer>, start: u64, cap: nat, buffer: u64, n: nat, b: u64)
    requires IsRun(ps, answers, start, cap) && n < |answers|
    ensures Scans(ps, answers, buffer, n, b)
       <==> Newer(Highest(answers, start, n), answers[n])
            && 1 <= b <= answers[n].latest.value && Highest(answers, start, n) <= b + buffer
  {
    LoopIsItsAnswers(ps, answers, start, cap, n);
  }
}
