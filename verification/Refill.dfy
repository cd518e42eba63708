/** Why a collapsed branch must not be refilled by the same block: a family of two-step batches
    that stop on their own witness. */
module Refill {
  import opened Options
  import opened Trie
  import opened TrieLaws
  import opened PartialTrie
  import opened Witness
  import opened Batch
  import opened Rpc

  /** A branch over two leaves, for the keys [x] + p and [y] + q. */
  function TwoKeys(x: Nibble, p: Path, a: Value, y: Nibble, q: Path, b: Value): Node {
    Fork(x, Keccak(Leaf(p, a)), y, Keccak(Leaf(q, b)))
  }

  /** On the witness for a batch, the batch stops at a node that the witness lacks. */
  ghost predicate StopsOnWitness(pre: Tree, keys: seq<Path>, ops: seq<Op>, lacking: Node) {
    var store := Index(WitnessNodes(pre, keys, ApplyAll(pre, ops)));
    && !NoRefill(store, pre, ops)
    && PartialApplyAll(PartialTree(RootOf(pre), store), ops) == Missing(Keccak(lacking))
  }

  /** For keys of any length: a branch with the keys [x] + p and [y] + q loses the former and then
      gains [z] + r.  The final proof of the lost key ends in the refilled branch and shows nothing of
      the sibling, so the deletion stops at the missing leaf, unless it equals the deleted one. */
  lemma {:induction false} RefillLosesSibling(x: Nibble, p: Path, a: Value, y: Nibble, q: Path,
      b: Value, z: Nibble, r: Path, c: Value)
    requires x != y && y != z && z != x && |p| == |q| == |r| && Leaf(p, a) != Leaf(q, b)
    ensures WellFormed(TwoKeys(x, p, a, y, q, b), 1 + |p|)
    ensures StopsOnWitness(Some(TwoKeys(x, p, a, y, q, b)), [[x] + p, [z] + r],
                           [Delete([x] + p), Put([z] + r, c)], Leaf(q, b))
  {
    RefillDelete(x, p, a, y, q, b);
    RefillPut(y, q, b, z, r, c);
    RefillPost(x, p, a, y, q, b, z, r, c);
    TwoKeysProofs(x, p, a, y, q, b, z, r);
    RefillPotential(y, q, b, z, r, c, x, p);
    RefillStops(TwoKeys(x, p, a, y, q, b), Leaf([y] + q, b), TwoKeys(y, q, b, z, r, c), [x] + p, y,
                Put([z] + r, c), Leaf(p, a), Leaf(q, b));
  }

  /** The same for the keys of account and storage tries, where a leaf this high in the trie has a
      path of 63 nibbles and is never embedded in its parent. */
  lemma {:induction false} RefillLosesLongLeaf(x: Nibble, p: Path, a: Value, y: Nibble, q: Path,
      b: Value, z: Nibble, r: Path, c: Value)
    requires x != y && y != z && z != x && |p| == |q| == |r| == KEY_NIBBLES - 1 && Leaf(p, a) != Leaf(q, b)
    ensures WellFormed(TwoKeys(x, p, a, y, q, b), KEY_NIBBLES)
    ensures StopsOnWitness(Some(TwoKeys(x, p, a, y, q, b)), [[x] + p, [z] + r],
                           [Delete([x] + p), Put([z] + r, c)], Leaf(q, b))
  {
    RefillLosesSibling(x, p, a, y, q, b, z, r, c);
  }

  lemma {:induction false} RefillStops(pre: Node, mid: Node, post: Node, zero: Path, slot: Nibble, refill: Op,
      taken: Node, left: Node)
    requires WellFormed(pre, |zero|) && Remove(pre, zero) == Some(mid)
    requires Sibling(pre, zero) == Some(Hidden([], slot, Keccak(left))) && left != pre && left != taken
    requires !QuietBelow(Some(mid), [refill], [])
    requires ApplyAll(Some(pre), [Delete(zero), refill]) == Some(post)
    requires Proof(pre, zero) == [pre, taken] && Proof(pre, refill.key) == [pre]
    requires Potential(Proof(post, zero), zero) == Potential(Proof(post, refill.key), refill.key) == []
    ensures StopsOnWitness(Some(pre), [zero, refill.key], [Delete(zero), refill], left)
  {
    RefillNodes(pre, post, zero, refill.key, taken);
    StopsOnStore(Index([pre, taken, pre]), pre, mid, zero, slot, refill, left);
  }

  lemma {:induction false} StopsOnStore(store: Store, pre: Node, mid: Node, zero: Path, slot: Nibble,
      refill: Op, left: Node)
    requires Consistent(store) && Holds(store, Proof(pre, zero)) && Keccak(left) !in store
    requires WellFormed(pre, |zero|) && Remove(pre, zero) == Some(mid)
    requires Sibling(pre, zero) == Some(Hidden([], slot, Keccak(left)))
    requires !QuietBelow(Some(mid), [refill], [])
    ensures !NoRefill(store, Some(pre), [Delete(zero), refill])
    ensures PartialApplyAll(PartialTree(RootOf(Some(pre)), store), [Delete(zero), refill]) == Missing(Keccak(left))
  {
    FirstStepMisses(store, Some(pre), zero, refill);
  }

  lemma {:induction false} RefillPost(x: Nibble, p: Path, a: Value, y: Nibble, q: Path, b: Value,
      z: Nibble, r: Path, c: Value)
    requires x != y && y != z && z != x && |p| == |q| == |r|
    ensures ApplyAll(Some(TwoKeys(x, p, a, y, q, b)), [Delete([x] + p), Put([z] + r, c)]) ==
            Some(TwoKeys(y, q, b, z, r, c))
  {
    RefillDelete(x, p, a, y, q, b);
    RefillPut(y, q, b, z, r, c);
    assert [Delete([x] + p), Put([z] + r, c)][1..] == [Put([z] + r, c)];
    assert ApplyAll(Some(Leaf([y] + q, b)), [Put([z] + r, c)]) == ApplyAll(Some(TwoKeys(y, q, b, z, r, c)), []);
  }

  lemma {:induction false} RefillNodes(pre: Node, post: Node, zero: Path, two: Path, taken: Node)
    requires Proof(pre, zero) == [pre, taken] && Proof(pre, two) == [pre]
    requires Potential(Proof(post, zero), zero) == Potential(Proof(post, two), two) == []
    ensures WitnessNodes(Some(pre), [zero, two], Some(post)) == [pre, taken, pre]
  {
    assert [zero, two][1..] == [two];
    WitnessNodesFirst(pre, post, zero, [two]);
    WitnessNodesFirst(pre, post, two, []);
  }

  lemma {:induction false} WitnessNodesFirst(pre: Node, post: Node, key: Path, keys: seq<Path>)
    requires Potential(Proof(post, key), key) == []
    ensures WitnessNodes(Some(pre), [key] + keys, Some(post)) ==
            Proof(pre, key) + WitnessNodes(Some(pre), keys, Some(post))
  {
    assert ([key] + keys)[1..] == keys;
    var given := Proof(pre, key);
    assert given + [] == given;
  }

  /** A two-step batch whose first step misses its collapse's sibling. */
  lemma {:induction false} FirstStepMisses(store: Store, pre: Tree, key: Path, next: Op)
    requires Consistent(store) && WellFormedTree(pre, |key|) && Holds(store, ProofTree(pre, key))
    requires !CollapseAtHand(store, pre, Delete(key))
    ensures PartialApplyAll(PartialTree(RootOf(pre), store), [Delete(key), next]) ==
            Missing(SiblingTree(pre, key).value.digest)
    ensures !QuietBelow(Apply(pre, Delete(key)), [next], SiblingTree(pre, key).value.at) ==>
              !NoRefill(store, pre, [Delete(key), next])
  {
    StepRefines(store, pre, Delete(key));
    assert [Delete(key), next][1..] == [next];
  }

  lemma {:induction false} RefillPotential(y: Nibble, q: Path, b: Value, z: Nibble, r: Path, c: Value,
      x: Nibble, p: Path)
    requires x != y && y != z && z != x && |p| == |q| == |r|
    ensures Potential(Proof(TwoKeys(y, q, b, z, r, c), [x] + p), [x] + p) == []
    ensures Potential(Proof(TwoKeys(y, q, b, z, r, c), [z] + r), [z] + r) == []
  {
    var post := TwoKeys(y, q, b, z, r, c);
    TwoKeysProofs(y, q, b, z, r, c, x, p);
    PotentialOfProof(post, [x] + p);
    PotentialOfProof(post, [z] + r);
  }

  lemma {:induction false} RefillDelete(x: Nibble, p: Path, a: Value, y: Nibble, q: Path, b: Value)
    requires x != y && |p| == |q|
    ensures WellFormed(TwoKeys(x, p, a, y, q, b), 1 + |p|)
    ensures Sibling(TwoKeys(x, p, a, y, q, b), [x] + p) == Some(Hidden([], y, Keccak(Leaf(q, b))))
    ensures Remove(TwoKeys(x, p, a, y, q, b), [x] + p) == Some(Leaf([y] + q, b))
  {
    ForkByChild(x, Leaf(p, a), y, Leaf(q, b), |p|);
    LastOfTwo(x, p, a, y, q, b);
    assert ([x] + p)[1..] == p;
  }

  lemma {:induction false} LastOfTwo(x: Nibble, p: Path, a: Value, y: Nibble, q: Path, b: Value)
    requires x != y
    ensures var n := TwoKeys(x, p, a, y, q, b);
            && Slot(n.children, x) == Some(Keccak(Leaf(p, a))) && n.children[x := None][y] == Some(Keccak(Leaf(q, b)))
            && Live(n.children[x := None]) == [y]
  {
    OnlyLive(TwoKeys(x, p, a, y, q, b).children[x := None], y);
  }

  lemma {:induction false} RefillPut(y: Nibble, q: Path, b: Value, z: Nibble, r: Path, c: Value)
    requires y != z && |q| == |r|
    ensures Insert(Leaf([y] + q, b), [z] + r, c) == TwoKeys(y, q, b, z, r, c)
    ensures !QuietBelow(Some(Leaf([y] + q, b)), [Put([z] + r, c)], [])
  {
    var path, key: Path := [y] + q, [z] + r;
    assert path[1..] == q && key[1..] == r;
    assert path[0] != key[0];
  }

  lemma {:induction false} TwoKeysProofs(x: Nibble, p: Path, a: Value, y: Nibble, q: Path, b: Value, z: Nibble, r: Path)
    requires x != y && z != x && z != y && |p| == |q|
    ensures WellFormed(TwoKeys(x, p, a, y, q, b), 1 + |p|)
    ensures Proof(TwoKeys(x, p, a, y, q, b), [x] + p) == [TwoKeys(x, p, a, y, q, b), Leaf(p, a)]
    ensures Proof(TwoKeys(x, p, a, y, q, b), [y] + q) == [TwoKeys(x, p, a, y, q, b), Leaf(q, b)]
    ensures Proof(TwoKeys(x, p, a, y, q, b), [z] + r) == [TwoKeys(x, p, a, y, q, b)]
    ensures Get(TwoKeys(x, p, a, y, q, b), [y] + q) == Some(b)
  {
    ForkByChild(x, Leaf(p, a), y, Leaf(q, b), |p|);
    var n := TwoKeys(x, p, a, y, q, b);
    assert Slot(n.children, x) == Some(Keccak(Leaf(p, a)));
    assert Slot(n.children, y) == Some(Keccak(Leaf(q, b)));
    assert Slot(n.children, z) == None;
    assert ([x] + p)[1..] == p && ([y] + q)[1..] == q;
  }

  lemma {:induction false} OnlyLive(rest: seq<Option<Digest>>, x: Nibble)
    requires |rest| == 16 && forall y: Nibble :: rest[y].Some? <==> y == x
    ensures Live(rest) == [x]
  {
    var live := Live(rest);
    assert x in live;
    assert forall i :: 0 <= i < |live| ==> live[i] == x;
    assert live[0] == live[|live| - 1];
  }
}
