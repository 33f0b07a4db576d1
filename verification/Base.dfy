/** Machine integers, saturating arithmetic and the "first minimum" selection that the
    Rust sources express with `iter().min_by_key(..)` over ordered maps. */
module Base {
  const MAX64: int := 0xFFFF_FFFF_FFFF_FFFF
  const MAX32: int := 0xFFFF_FFFF

  type u64 = x: int | 0 <= x <= 0xFFFF_FFFF_FFFF_FFFF
  type u32 = x: int | 0 <= x <= 0xFFFF_FFFF
  type byte = x: int | 0 <= x < 256

  datatype Option<+T> = None | Some(value: T)

  datatype Result<+T, +E> = Ok(value: T) | Err(error: E)

  function Min(a: int, b: int): int {
    if a <= b then a else b
  }

  function Max(a: int, b: int): int {
    if a >= b then a else b
  }

  /** `u64::saturating_add`. */
  function SatAdd(a: u64, b: u64): u64 {
    if a + b <= MAX64 then a + b else MAX64
  }

  /** `u64::saturating_sub`. */
  function SatSub(a: u64, b: u64): u64 {
    if a >= b then a - b else 0
  }

  /** `u32::saturating_add`, with any number of increments. */
  function SatAdd32(a: u32, n: nat): u32 {
    if a + n <= MAX32 then a + n else MAX32
  }

  lemma {:induction false} SubsetSize<T>(a: set<T>, b: set<T>)
    requires a <= b
    ensures |a| <= |b|
    decreases |a|
  {
    if a != {} {
      var x :| x in a;
      SubsetSize(a - {x}, b - {x});
    }
  }

  /** Is `k` the first key, in key order, whose score is least? */
  ghost predicate IsMinKey(m: map<nat, nat>, k: nat) {
    && k in m
    && forall x | x in m :: m[k] < m[x] || (m[k] == m[x] && k <= x)
  }

  lemma {:induction false} MinKeyExists(m: map<nat, nat>)
    requires m != map[]
    ensures exists k :: IsMinKey(m, k)
    decreases |m|
  {
    var x :| x in m;
    var rest := m - {x};
    assert forall y | y in m && y != x :: y in rest;
    if rest == map[] {
      assert IsMinKey(m, x);
    } else {
      MinKeyExists(rest);
      var k :| IsMinKey(rest, k);
      assert IsMinKey(m, if m[x] < m[k] || (m[x] == m[k] && x <= k) then x else k);
    }
  }

  /** The first key with the least score: ties go to the smallest key, as `min_by_key`
      over an ordered map resolves them. */
  ghost function MinKey(m: map<nat, nat>): (k: nat)
    requires m != map[]
    ensures IsMinKey(m, k)
  {
    MinKeyExists(m);
    var k :| IsMinKey(m, k);
    k
  }

  lemma MinKeyUnique(m: map<nat, nat>, k: nat)
    requires IsMinKey(m, k)
    ensures k == MinKey(m)
  {
  }

  /** Linear scan for the first minimum. */
  method FindMin(m: map<nat, nat>) returns (k: nat)
    requires m != map[]
    ensures k == MinKey(m)
  {
    var todo := m.Keys;
    k :| k in todo;
    todo := todo - {k};
    while todo != {}
      invariant todo <= m.Keys && k in m && k !in todo
      invariant forall x | x in m && x !in todo :: m[k] < m[x] || (m[k] == m[x] && k <= x)
      decreases todo
    {
      var x :| x in todo;
      if m[x] < m[k] || (m[x] == m[k] && x < k) {
        k := x;
      }
      todo := todo - {x};
    }
    MinKeyUnique(m, k);
  }

  /** The smallest element, the next one an ordered map yields. */
  ghost function Least(s: set<nat>): (k: nat)
    requires s != {}
    ensures k in s && forall x | x in s :: k <= x
  {
    var m := map x | x in s :: 0 as nat;
    assert m.Keys == s;
    MinKey(m)
  }

  method FindLeast(s: set<nat>) returns (k: nat)
    requires s != {}
    ensures k == Least(s)
  {
    var m := map x | x in s :: 0 as nat;
    assert m.Keys == s;
    k := FindMin(m);
  }

  /** The elements of `s`, each once, in order: what walking an ordered map yields. */
  ghost predicate InOrder(ids: seq<nat>, s: set<nat>) {
    (forall k :: k in ids <==> k in s) && forall i, j | 0 <= i < j < |ids| :: ids[i] < ids[j]
  }

  lemma OneMoreInOrder(ids: seq<nat>, s: set<nat>, k: nat)
    requires InOrder(ids, s) && forall x | x in ids :: x < k
    ensures InOrder(ids + [k], s + {k})
  {
    forall i, j | 0 <= i < j < |ids + [k]| ensures (ids + [k])[i] < (ids + [k])[j] {
      assert ids[i] in ids;
    }
    forall x ensures x in ids + [k] <==> x in s + {k} {
      assert x in ids + [k] <==> x in ids || x == k;
    }
  }

  method Ordered(s: set<nat>) returns (ids: seq<nat>)
    ensures InOrder(ids, s)
  {
    var todo := s;
    ids := [];
    while todo != {}
      invariant todo <= s && InOrder(ids, s - todo)
      invariant forall x, k | x in ids && k in todo :: x < k
      decreases todo
    {
      var k := FindLeast(todo);
      OneMoreInOrder(ids, s - todo, k);
      assert s - (todo - {k}) == s - todo + {k};
      ids, todo := ids + [k], todo - {k};
    }
  }
}
