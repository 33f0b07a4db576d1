/** Domain-separated Merkle verification: 0x00 over leaves, 0x01 over sorted pairs of nodes. */
module Merkle {
  /** 32-byte words. `Raw` is any word that is not a hash output here; the two hash domains are
      taken to be collision-free and disjoint, as keccak over distinct prefixes is meant to be. */
  datatype Digest = Raw(id: nat) | LeafHash(of: Digest) | NodeHash(left: Digest, right: Digest)

  /** Some total order on words, as the byte order is. */
  predicate Leq(a: Digest, b: Digest) {
    match a
    case Raw(x) => if b.Raw? then x <= b.id else true
    case LeafHash(x) => if b.Raw? then false else if b.LeafHash? then Leq(x, b.of) else true
    case NodeHash(l, r) =>
      b.NodeHash? && (if l == b.left then Leq(r, b.right) else Leq(l, b.left))
  }

  lemma {:induction false} LeqTotal(a: Digest, b: Digest)
    ensures Leq(a, b) || Leq(b, a)
  {
    match a
    case Raw(_) =>
    case LeafHash(x) => if b.LeafHash? { LeqTotal(x, b.of); }
    case NodeHash(l, r) => if b.NodeHash? { LeqTotal(l, b.left); LeqTotal(r, b.right); }
  }

  lemma {:induction false} LeqAntisymmetric(a: Digest, b: Digest)
    requires Leq(a, b) && Leq(b, a)
    ensures a == b
  {
    match a
    case Raw(_) =>
    case LeafHash(x) => LeqAntisymmetric(x, b.of);
    case NodeHash(l, r) =>
      if l == b.left { LeqAntisymmetric(r, b.right); } else { LeqAntisymmetric(l, b.left); }
  }

  /** The parent of two nodes: hashed with the smaller word first. */
  function Parent(a: Digest, b: Digest): Digest {
    if Leq(a, b) then NodeHash(a, b) else NodeHash(b, a)
  }

  lemma ParentIsUnordered(a: Digest, b: Digest)
    ensures Parent(a, b) == Parent(b, a)
  {
    LeqTotal(a, b);
    if Leq(a, b) && Leq(b, a) {
      LeqAntisymmetric(a, b);
    }
  }

  /** A parent determines its children up to order. */
  lemma ParentDetermines(a: Digest, b: Digest, c: Digest, d: Digest)
    requires Parent(a, b) == Parent(c, d)
    ensures (a == c && b == d) || (a == d && b == c)
  {
  }

  /** The node reached from `h` by hashing it with each sibling in turn. */
  function Climb(h: Digest, proof: seq<Digest>): Digest {
    if proof == [] then h else Parent(Climb(h, proof[..|proof| - 1]), proof[|proof| - 1])
  }

  method VerifyMerkleProof(proof: seq<Digest>, root: Digest, leaf: Digest) returns (ok: bool)
    ensures ok <==> Climb(LeafHash(leaf), proof) == root
  {
    var computed := LeafHash(leaf);
    for i := 0 to |proof|
      invariant computed == Climb(LeafHash(leaf), proof[..i])
    {
      var sibling := proof[i];
      computed := if Leq(computed, sibling) then NodeHash(computed, sibling) else NodeHash(sibling, computed);
      assert proof[..i + 1][..i] == proof[..i];
    }
    assert proof[..|proof|] == proof;
    ok := computed == root;
  }

  // ---- trees ------------------------------------------------------------------------

  datatype Tree = Tip(leaf: Digest) | Fork(left: Tree, right: Tree)

  function RootOf(t: Tree): Digest {
    match t
    case Tip(leaf) => LeafHash(leaf)
    case Fork(l, r) => Parent(RootOf(l), RootOf(r))
  }

  /** Does `path` (false: left, true: right, from the root down) end at a leaf? */
  predicate Reaches(t: Tree, path: seq<bool>) {
    match t
    case Tip(_) => path == []
    case Fork(l, r) => path != [] && Reaches(if path[0] then r else l, path[1..])
  }

  function LeafAt(t: Tree, path: seq<bool>): Digest
    requires Reaches(t, path)
  {
    match t
    case Tip(leaf) => leaf
    case Fork(l, r) => LeafAt(if path[0] then r else l, path[1..])
  }

  /** The siblings along the path, from the leaf up. */
  function Siblings(t: Tree, path: seq<bool>): seq<Digest>
    requires Reaches(t, path)
  {
    match t
    case Tip(_) => []
    case Fork(l, r) => Siblings(if path[0] then r else l, path[1..]) + [RootOf(if path[0] then l else r)]
  }

  /** Completeness: every leaf's sibling path verifies. */
  lemma {:induction false} SiblingsVerify(t: Tree, path: seq<bool>)
    requires Reaches(t, path)
    ensures Climb(LeafHash(LeafAt(t, path)), Siblings(t, path)) == RootOf(t)
    decreases t
  {
    if t.Fork? {
      var below := if path[0] then t.right else t.left;
      SiblingsVerify(below, path[1..]);
      var proof := Siblings(t, path);
      assert proof[..|proof| - 1] == Siblings(below, path[1..]);
      ParentIsUnordered(RootOf(t.left), RootOf(t.right));
    }
  }

  /** Soundness: a proof that verifies against a tree's root is the sibling path of one of its
      leaves, and proves that leaf. */
  lemma {:induction false} VerifiedIsALeaf(t: Tree, proof: seq<Digest>, leaf: Digest) returns (path: seq<bool>)
    requires Climb(LeafHash(leaf), proof) == RootOf(t)
    ensures Reaches(t, path) && LeafAt(t, path) == leaf && Siblings(t, path) == proof
    decreases t
  {
    if proof == [] {
      path := [];
    } else {
      var below, sibling := proof[..|proof| - 1], proof[|proof| - 1];
      var c := Climb(LeafHash(leaf), below);
      ParentDetermines(c, sibling, RootOf(t.left), RootOf(t.right));
      if c == RootOf(t.left) && sibling == RootOf(t.right) {
        var rest := VerifiedIsALeaf(t.left, below, leaf);
        path := [false] + rest;
        assert path[1..] == rest;
      } else {
        var rest := VerifiedIsALeaf(t.right, below, leaf);
        path := [true] + rest;
        assert path[1..] == rest;
      }
      assert proof == below + [sibling];
    }
  }

  ghost predicate IsLeaf(t: Tree, leaf: Digest) {
    exists path :: Reaches(t, path) && LeafAt(t, path) == leaf
  }

  /** A word can be proved against a tree exactly when it is one of the tree's leaves. */
  lemma ProvableIffLeaf(t: Tree, leaf: Digest)
    ensures (exists proof :: Climb(LeafHash(leaf), proof) == RootOf(t)) <==> IsLeaf(t, leaf)
  {
    if proof :| Climb(LeafHash(leaf), proof) == RootOf(t) {
      var path := VerifiedIsALeaf(t, proof, leaf);
    }
    if path :| Reaches(t, path) && LeafAt(t, path) == leaf {
      SiblingsVerify(t, path);
    }
  }

  predicate RawLeaves(t: Tree) {
    match t
    case Tip(leaf) => leaf.Raw?
    case Fork(l, r) => RawLeaves(l) && RawLeaves(r)
  }

  lemma {:induction false} LeavesAreRaw(t: Tree, path: seq<bool>)
    requires RawLeaves(t) && Reaches(t, path)
    ensures LeafAt(t, path).Raw?
    decreases t
  {
    if t.Fork? {
      LeavesAreRaw(if path[0] then t.right else t.left, path[1..]);
    }
  }

  /** No hash of a tree over plain words, of an internal node least of all, can be passed off as a
      leaf: no proof whatever verifies it. */
  lemma InternalNodeIsNotALeaf(t: Tree, inner: Digest, proof: seq<Digest>)
    requires RawLeaves(t) && !inner.Raw?
    ensures Climb(LeafHash(inner), proof) != RootOf(t)
  {
    if Climb(LeafHash(inner), proof) == RootOf(t) {
      var path := VerifiedIsALeaf(t, proof, inner);
      LeavesAreRaw(t, path);
      assert false;
    }
  }
}
