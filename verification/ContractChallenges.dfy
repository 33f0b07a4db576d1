/** What a challenge proves: the Merkle theorems at the call that relies on them. */
module ContractChallenges {
  import opened Base
  import opened Merkle
  import opened ContractSpec

  /** The disputed epoch's root is committed, and is the root of `t`. */
  predicate Commits(c: Chain, id: JobId, epoch: nat, t: Tree) {
    id in c.jobs && epoch in c.jobs[id].epochRoots && c.jobs[id].epochRoots[epoch] == RootOf(t)
  }

  /** An accepted challenge shows a leaf of the tree the coordinator committed: the word is at the end of a
      path in it and the proof is exactly the siblings along that path. */
  lemma ChallengedIsALeaf(c: Chain, id: JobId, t: Tree, caller: Addr, d: Dispute, leaf: Digest, proof: seq<Digest>, bond: nat)
    returns (path: seq<bool>)
    requires Commits(c, id, d.epoch, t) && Answer(c, On(id, Open(caller, d, leaf, proof, bond))).Ok?
    ensures Reaches(t, path) && LeafAt(t, path) == leaf && Siblings(t, path) == proof && IsLeaf(t, leaf)
  {
    path := VerifiedIsALeaf(t, proof, leaf);
  }

  /** The siblings along a leaf's path are never refused as a bad proof. */
  lemma LeavesAreNotRefused(c: Chain, id: JobId, t: Tree, caller: Addr, d: Dispute, path: seq<bool>, bond: nat)
    requires Commits(c, id, d.epoch, t) && Reaches(t, path)
    ensures Answer(c, On(id, Open(caller, d, LeafAt(t, path), Siblings(t, path), bond))) != Err(BadMerkleProof)
  {
    SiblingsVerify(t, path);
  }

  /** Any other word, or the right word with any other siblings, is never accepted. */
  lemma OtherWordsAreRefused(c: Chain, id: JobId, t: Tree, caller: Addr, d: Dispute, leaf: Digest, proof: seq<Digest>, bond: nat)
    requires Commits(c, id, d.epoch, t)
    requires forall path | Reaches(t, path) && LeafAt(t, path) == leaf :: Siblings(t, path) != proof
    ensures Answer(c, On(id, Open(caller, d, leaf, proof, bond))).Err?
  {
    if Answer(c, On(id, Open(caller, d, leaf, proof, bond))).Ok? {
      var path := ChallengedIsALeaf(c, id, t, caller, d, leaf, proof, bond);
      assert false;
    }
  }
}
