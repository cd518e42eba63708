/** What the final proofs of the touched keys tell about branches that a deletion has collapsed onto:
    whoever holds only the proofs can tell beforehand that a block replays. */
module FinalProofs {
  import opened Options
  import opened Trie
  import opened TrieLaws
  import opened PartialTrie
  import opened PartialTrieLaws
  import opened Witness
  import opened Batch

  /** The last node of a proof, and what is left of the key there. */
  datatype Exit = Exit(node: Node, rest: Path)

  function ExitOf(proof: seq<Node>, key: Path): Exit
    requires proof != []
    decreases |proof|
  {
    if |proof| == 1 then Exit(proof[0], key)
    else
      var step := if proof[0].Branch? then 1 else |proof[0].path|;
      ExitOf(proof[1..], if step <= |key| then key[step..] else [])
  }

  /** The proof ends in an extension that the key follows on every nibble of its path but the last. */
  predicate LeavesAtLastNibble(proof: seq<Node>, key: Path) {
    proof != [] &&
    var e := ExitOf(proof, key);
    e.node.Extension? && e.node.path != [] && |e.node.path| <= |e.rest| &&
    var last := |e.node.path| - 1;
    e.node.path[..last] == e.rest[..last] && e.node.path[last] != e.rest[last]
  }

  /** What that extension leads to; its digest is written in the proof. */
  function LeftChild(proof: seq<Node>, key: Path): Digest
    requires LeavesAtLastNibble(proof, key)
  {
    ExitOf(proof, key).node.child
  }

  // ------------------------------------------------------------ one nibble at a time

  /** Two proofs that leave in the same way. */
  ghost predicate LeaveAlike(p: seq<Node>, key: Path, q: seq<Node>, other: Path) {
    && (LeavesAtLastNibble(p, key) <==> LeavesAtLastNibble(q, other))
    && (LeavesAtLastNibble(p, key) ==> LeftChild(p, key) == LeftChild(q, other))
  }

  /** m is what is left of n's path after one nibble, and is still a node of the same kind. */
  predicate Shortening(n: Node, m: Node) {
    && !n.Branch? && n.path != [] && m == Behead(n)
    && (n.Extension? ==> 2 <= |n.path|)
  }

  lemma {:induction false} ExitOneNode(n: Node, m: Node, key: Path)
    requires key != [] && Shortening(n, m) && n.path[0] == key[0]
    ensures LeaveAlike([n], key, [m], key[1..])
  {
    if n.Extension? && 2 <= |n.path| <= |key| {
      var last := |n.path| - 1;
      assert n.path[..last] == [n.path[0]] + m.path[..last - 1];
      assert key[..last] == [key[0]] + key[1..][..last - 1];
      assert n.path[..last] == key[..last] <==> m.path[..last - 1] == key[1..][..last - 1];
    }
  }

  lemma {:induction false} ExitByChild(n: Node, key: Path)
    requires key != [] && WellFormed(n, |key|) && Child(n, key[0]).Some?
    ensures LeaveAlike(Proof(n, key), key, Proof(Child(n, key[0]).value, key[1..]), key[1..])
  {
    var m := Child(n, key[0]).value;
    ProofByChild(n, key);
    var below := Proof(m, key[1..]);
    assert ([n] + below)[1..] == below;
    if !n.Branch? && !m.Branch? {
      if |below| == 1 {
        assert below == [m] && Proof(n, key) == [n];
        ExitOneNode(n, m, key);
      } else {
        ExitSameTail(n, m, below[1..], key);
        assert below == [m] + below[1..];
      }
    }
  }

  lemma {:induction false} ExitSameTail(n: Node, m: Node, tail: seq<Node>, key: Path)
    requires key != [] && Shortening(n, m) && tail != [] && |n.path| <= |key|
    ensures ExitOf([n] + tail, key) == ExitOf([m] + tail, key[1..])
  {
    assert ([n] + tail)[1..] == tail && ([m] + tail)[1..] == tail;
    assert key[|n.path|..] == key[1..][|n.path| - 1..];
  }

  // ------------------------------------------------------------ what a collapse leaves

  /** The proof leaves at the last nibble exactly if the sibling is a branch, and then it names it. */
  ghost predicate Tells(proof: seq<Node>, key: Path, sibling: Node) {
    && (LeavesAtLastNibble(proof, key) <==> sibling.Branch?)
    && (LeavesAtLastNibble(proof, key) ==> LeftChild(proof, key) == Keccak(sibling))
  }

  lemma {:induction false} LoneSiblingHere(n: Node, key: Path, slot: Nibble, sibling: Node)
    requires key != [] && slot != key[0] && WellFormed(sibling, |key| - 1) && n == Graft([slot], sibling)
    ensures Tells(Proof(n, key), key, sibling)
  {
    assert n.path[0] == slot;
    assert Proof(n, key) == [n];
    if n.Extension? && |n.path| > 1 {
      assert n.path[..|n.path| - 1][0] == slot;
    }
  }

  lemma {:induction false} TellsAlike(p: seq<Node>, key: Path, q: seq<Node>, other: Path, sibling: Node)
    requires LeaveAlike(p, key, q, other) && Tells(q, other, sibling)
    ensures Tells(p, key, sibling)
  {
  }

  /** Where there is only a sibling left beside the key's way, the key's proof tells what it is. */
  lemma {:induction false} LoneSiblingExit(n: Node, key: Path, at: Path, slot: Nibble, sibling: Node)
    requires WellFormed(n, |key|) && |at| < |key| && at <= key && slot != key[|at|]
    requires WellFormed(sibling, |key| - |at| - 1) && Sub(Some(n), at) == Some(Graft([slot], sibling))
    ensures Tells(Proof(n, key), key, sibling)
    decreases |at|
  {
    if at == [] {
      LoneSiblingHere(n, key, slot, sibling);
    } else {
      var next := Child(n, key[0]);
      ChildWellFormed(n, |key|, key[0]);
      SubOfEmpty(at[1..]);
      assert Sub(Some(n), at) == Sub(next, at[1..]);
      assert key[|at|] == key[1..][|at| - 1];
      LoneSiblingExit(next.value, key[1..], at[1..], slot, sibling);
      ExitByChild(n, key);
      TellsAlike(Proof(n, key), key, Proof(next.value, key[1..]), key[1..], sibling);
    }
  }

  lemma {:induction false} SiblingWellFormed(t: Tree, key: Path, h: Hidden, after: Tree)
    requires WellFormedTree(t, |key|) && Explains(t, key, h, after)
    ensures WellFormed(h.digest.preimage, |key| - |h.at| - 1)
  {
    SubWellFormed(t, h.at, |key|);
    ChildWellFormed(Sub(t, h.at).value, |key| - |h.at|, h.slot);
  }

  /** The sibling lies beside the key's way, under a nibble of its own. */
  ghost predicate Beside(key: Path, h: Hidden) {
    && |h.at| < |key| && h.at <= key && h.slot != key[|h.at|]
    && WellFormed(h.digest.preimage, |key| - |h.at| - 1)
  }

  lemma {:induction false} CollapseIsBeside(t: Tree, key: Path)
    requires WellFormedTree(t, |key|) && SiblingTree(t, key).Some?
    ensures Beside(key, SiblingTree(t, key).value)
  {
    var h := SiblingTree(t, key).value;
    CollapsePosition(t.value, key);
    SiblingWellFormed(t, key, h, Remove(t.value, key));
  }

  lemma {:induction false} LoneSiblingTells(post: Tree, key: Path, h: Hidden)
    requires WellFormedTree(post, |key|) && Beside(key, h) && ShownBy(post, h)
    ensures var sibling := h.digest;
            var proof := ProofTree(post, key);
            && (sibling.preimage.Branch? <==> LeavesAtLastNibble(proof, key))
            && (!sibling.preimage.Branch? ==> sibling.preimage in Potential(proof, key))
            && (LeavesAtLastNibble(proof, key) ==> LeftChild(proof, key) == sibling)
  {
    if !h.digest.preimage.Branch? {
      SiblingAmongPotential(post, key, h);
    }
    SubOfEmpty(h.at);
    LoneSiblingExit(post.value, key, h.at, h.slot, h.digest.preimage);
  }

  /** Where a collapse can be seen at the end, the deleted key's final proof tells what it was onto. */
  lemma {:induction false} VisibleCollapse(t: Tree, key: Path, post: Tree)
    requires WellFormedTree(t, |key|) && WellFormedTree(post, |key|) && SiblingTree(t, key).Some?
    requires ShownBy(post, SiblingTree(t, key).value)
    ensures var sibling := SiblingTree(t, key).value.digest;
            var proof := ProofTree(post, key);
            && (sibling.preimage.Branch? <==> LeavesAtLastNibble(proof, key))
            && (!sibling.preimage.Branch? ==> sibling.preimage in Potential(proof, key))
            && (LeavesAtLastNibble(proof, key) ==> LeftChild(proof, key) == sibling)
  {
    CollapseIsBeside(t, key);
    LoneSiblingTells(post, key, SiblingTree(t, key).value);
  }

  /** The limitation of the potential child nodes shows in the final proof: for every deletion that
      collapses a branch, the sibling is a branch, and so not among them, exactly if the deleted key's
      final proof leaves at the last nibble; and then the proof names the missing node. */
  lemma {:induction false} BranchSiblingShows(n: Node, key: Path)
    requires WellFormed(n, |key|) && Sibling(n, key).Some?
    ensures var sibling := Sibling(n, key).value.digest;
            var proof := ProofTree(Remove(n, key), key);
            && (sibling.preimage.Branch? <==> LeavesAtLastNibble(proof, key))
            && (sibling.preimage in Potential(proof, key) <==> !LeavesAtLastNibble(proof, key))
            && (LeavesAtLastNibble(proof, key) ==> LeftChild(proof, key) == sibling)
  {
    CollapsePosition(n, key);
    RemoveWellFormed(n, key);
    VisibleCollapse(Some(n), key, Remove(n, key));
    CollapseCompleteness(n, key);
  }

  // ------------------------------------------------------------------------- batches

  /** A key's final proof leaves at the last nibble over a node that is not in the witness. */
  predicate HidesBranch(store: Store, proof: seq<Node>, key: Path) {
    LeavesAtLastNibble(proof, key) && LeftChild(proof, key) !in store
  }

  /** No touched key's final proof hides a branch.  It can be seen from the proofs and the witness. */
  ghost predicate NoneHidden(store: Store, post: Tree, touched: set<Path>) {
    forall key :: key in touched ==> !HidesBranch(store, ProofTree(post, key), key)
  }

  /** A collapse whose sibling is not at hand, and which can be seen at the end, is onto a branch, and
      the final proof of the deleted key hides it. */
  lemma {:induction false} MissingIsHidden(store: Store, t: Tree, ops: seq<Op>, touched: set<Path>)
    requires ops != [] && WellFormedTree(t, |ops[0].key|) && Sized(touched, |ops[0].key|)
    requires forall op :: op in ops ==> op.key in touched
    requires forall key :: key in touched ==> Holds(store, Potential(ProofTree(ApplyAll(t, ops), key), key))
    requires !CollapseAtHand(store, t, ops[0]) && ShownBy(ApplyAll(t, ops), SiblingTree(t, ops[0].key).value)
    ensures var proof := ProofTree(ApplyAll(t, ops), ops[0].key);
            HidesBranch(store, proof, ops[0].key) &&
              LeftChild(proof, ops[0].key) == SiblingTree(t, ops[0].key).value.digest
  {
    BatchWellFormed(t, ops, |ops[0].key|);
    VisibleCollapse(t, ops[0].key, ApplyAll(t, ops));
  }

  /** The key is there before the batch, or after some of its operations. */
  ghost predicate PresentSometime(t: Tree, ops: seq<Op>, key: Path) {
    exists i :: 0 <= i <= |ops| && GetTree(ApplyAll(t, ops[..i]), key).Some?
  }

  lemma {:induction false} PresentFirst(t: Tree, ops: seq<Op>, key: Path)
    requires GetTree(t, key).Some?
    ensures PresentSometime(t, ops, key)
  {
    assert ops[..0] == [];
  }

  lemma {:induction false} PresentLater(t: Tree, ops: seq<Op>, key: Path)
    requires ops != [] && PresentSometime(Apply(t, ops[0]), ops[1..], key)
    ensures PresentSometime(t, ops, key)
  {
    var i :| 0 <= i <= |ops[1..]| && GetTree(ApplyAll(Apply(t, ops[0]), ops[1..][..i]), key).Some?;
    assert ops[..i + 1][1..] == ops[1..][..i];
    assert ApplyAll(t, ops[..i + 1]) == ApplyAll(Apply(t, ops[0]), ops[1..][..i]);
  }

  /** A deletion collapses a branch only if there is something to delete. */
  lemma {:induction false} CollapseMeansPresent(t: Tree, key: Path)
    requires WellFormedTree(t, |key|) && SiblingTree(t, key).Some?
    ensures GetTree(t, key).Some?
  {
    var h := SiblingTree(t, key).value;
    CollapsePosition(t.value, key);
    if GetTree(t, key).None? {
      forall other: Path | |other| == |key| && [] <= other
        ensures GetTree(t, other) == GetTree(RemoveTree(t, key), other)
      {
        GetAfterRemove(t, key, other);
      }
      GetAfterRemove(t, key, key);
      SameBelow(t, RemoveTree(t, key), [], |key|);
    }
  }

  /** If a replay on a witness stops, and its collapses can be seen at the end, then the final proof of
      some touched key that was present before hides the very node at which it stops. */
  lemma {:induction false} StopIsHidden(store: Store, pre: Tree, touched: set<Path>, ops: seq<Op>, len: nat)
    requires Consistent(store) && WellFormedTree(pre, len) && Sized(touched, len)
    requires forall op :: op in ops ==> op.key in touched
    requires Carries(store, pre, touched, ApplyAll(pre, ops)) && VisibleAtTheEnd(store, pre, ops)
    ensures var end := PartialApplyAll(PartialTree(RootOf(pre), store), ops);
            end.Missing? ==>
              exists key :: key in touched && PresentSometime(pre, ops, key) &&
                HidesBranch(store, ProofTree(ApplyAll(pre, ops), key), key) &&
                LeftChild(ProofTree(ApplyAll(pre, ops), key), key) == end.digest
    decreases |ops|
  {
    if ops != [] {
      var op := ops[0];
      assert op in ops;
      StepRefines(store, pre, op);
      if CollapseAtHand(store, pre, op) {
        StepKeepsHolding(store, pre, op, touched);
        ApplyWellFormed(pre, op);
        StopIsHidden(store + Index(Built(pre, op)), Apply(pre, op), touched, ops[1..], len);
        forall key | PresentSometime(Apply(pre, op), ops[1..], key) ensures PresentSometime(pre, ops, key) {
          PresentLater(pre, ops, key);
        }
      } else {
        MissingIsHidden(store, pre, ops, touched);
        CollapseMeansPresent(pre, op.key);
        PresentFirst(pre, ops, op.key);
      }
    }
  }

  /** Whoever sees that no final proof hides a branch, and that the collapses are visible at the end,
      knows that the batch replays on the witness, to the right root. */
  lemma {:induction false} NoneHiddenReplays(store: Store, pre: Tree, touched: set<Path>, ops: seq<Op>, len: nat)
    requires Consistent(store) && WellFormedTree(pre, len) && Sized(touched, len)
    requires forall op :: op in ops ==> op.key in touched
    requires Carries(store, pre, touched, ApplyAll(pre, ops)) && VisibleAtTheEnd(store, pre, ops)
    requires NoneHidden(store, ApplyAll(pre, ops), touched)
    ensures var end := PartialApplyAll(PartialTree(RootOf(pre), store), ops);
            end.Ok? && end.value.root == RootOf(ApplyAll(pre, ops))
  {
    StopIsHidden(store, pre, touched, ops, len);
    ReplayIsExact(store, pre, touched, ops, len);
  }

  /** All of it can be seen beforehand, from the list of updates, the final proofs and the witness. */
  lemma {:induction false} PutsFirstReplays(store: Store, pre: Tree, touched: set<Path>, ops: seq<Op>, len: nat)
    requires Consistent(store) && WellFormedTree(pre, len) && Sized(touched, len)
    requires forall op :: op in ops ==> op.key in touched
    requires Carries(store, pre, touched, ApplyAll(pre, ops)) && PutsFirst(ops)
    requires NoneHidden(store, ApplyAll(pre, ops), touched)
    ensures var end := PartialApplyAll(PartialTree(RootOf(pre), store), ops);
            end.Ok? && end.value.root == RootOf(ApplyAll(pre, ops))
  {
    PutsFirstNoRefill(store, pre, ops);
    NoRefillIsVisible(store, pre, touched, ops, len);
    NoneHiddenReplays(store, pre, touched, ops, len);
  }

  // ------------------------------------------------------------------ the other way round

  /** The proof does not leave at the last nibble unless over the given node or one of the others. */
  ghost predicate LeavesOver(proof: seq<Node>, key: Path, before: seq<Node>, others: set<Node>) {
    LeavesAtLastNibble(proof, key) ==>
      || (LeavesAtLastNibble(before, key) && LeftChild(before, key) == LeftChild(proof, key))
      || LeftChild(proof, key).preimage in others
  }

  /** The proof of a present key never leaves. */
  lemma {:induction false} PresentNeverLeaves(n: Node, key: Path)
    requires WellFormed(n, |key|) && Get(n, key).Some?
    ensures !LeavesAtLastNibble(Proof(n, key), key)
    decreases |key|
  {
    if key != [] {
      GetByChild(n, key);
      ChildWellFormed(n, |key|, key[0]);
      PresentNeverLeaves(Child(n, key[0]).value, key[1..]);
      ExitByChild(n, key);
    }
  }

  /** A proof of one node that leaves at the last nibble leaves at its first. */
  lemma {:induction false} LeavesHere(n: Node, key: Path)
    requires key != [] && WellFormed(n, |key|) && Child(n, key[0]).None?
    ensures Proof(n, key) == [n]
    ensures LeavesAtLastNibble([n], key) <==> n.Extension? && |n.path| == 1
    ensures LeavesAtLastNibble([n], key) ==> LeftChild([n], key) == n.child && n.path[0] != key[0]
  {
    ProofByChild(n, key);
    if n.Extension? && 2 <= |n.path| <= |key| {
      assert n.path[..|n.path| - 1][0] == n.path[0] && key[..|n.path| - 1][0] == key[0];
    }
  }

  function SiblingNodes(h: Option<Hidden>): set<Node> {
    if h.None? then {} else {h.value.digest.preimage}
  }

  lemma {:induction false} SiblingByChild(n: Node, key: Path)
    requires key != [] && WellFormed(n, |key|) && Child(n, key[0]).Some?
    requires Remove(Child(n, key[0]).value, key[1..]).Some?
    ensures SiblingNodes(Sibling(n, key)) == SiblingNodes(Sibling(Child(n, key[0]).value, key[1..]))
  {
    if n.Extension? {
      assert n.path <= key <==> n.path[1..] <= key[1..];
      if n.path <= key {
        assert key[|n.path|..] == key[1..][|n.path| - 1..];
      }
    }
  }

  lemma {:induction false} ExitAfterRemove(n: Node, removed: Path, key: Path)
    requires WellFormed(n, |removed|) && |key| == |removed| && Remove(n, removed).Some?
    ensures var m := Remove(n, removed).value;
            LeavesOver(Proof(m, key), key, Proof(n, key), Below(m, removed) + SiblingNodes(Sibling(n, removed)))
    decreases |key|
  {
    var m := Remove(n, removed).value;
    if key != [] {
      RemoveByChild(n, removed);
      ChildWellFormed(n, |key|, key[0]);
      if Child(m, key[0]).None? {
        RemoveExitHere(n, removed, key);
      } else {
        ExitByChild(m, key);
        ExitByChild(n, key);
        if key[0] == removed[0] {
          ExitAfterRemove(Child(n, key[0]).value, removed[1..], key[1..]);
          SiblingByChild(n, removed);
          BelowChild(m, removed);
        }
      }
    }
  }

  lemma {:induction false} RemoveExitHere(n: Node, removed: Path, key: Path)
    requires key != [] && WellFormed(n, |key|) && |key| == |removed| && Remove(n, removed).Some?
    requires Child(Remove(n, removed).value, key[0]).None?
    ensures var m := Remove(n, removed).value;
            LeavesOver(Proof(m, key), key, Proof(n, key), Below(m, removed) + SiblingNodes(Sibling(n, removed)))
  {
    var m := Remove(n, removed).value;
    RemoveByChild(n, removed);
    LeavesHere(m, key);
    if LeavesAtLastNibble([m], key) {
      BelowByChild(m, removed);
      if m.path[0] != removed[0] {
        if n.Branch? {
          RemoveCollapsed(n, removed);
        } else {
          LeavesHere(n, key);
        }
      }
    }
  }

  /** A branch that is one no more after a removal has collapsed onto what is below its only nibble. */
  lemma {:induction false} RemoveCollapsed(n: Node, removed: Path)
    requires n.Branch? && removed != [] && WellFormed(n, |removed|)
    requires Remove(n, removed).Some? && Remove(n, removed).value.Extension?
    requires |Remove(n, removed).value.path| == 1 && Remove(n, removed).value.path[0] != removed[0]
    ensures Remove(n, removed).value.child.preimage in SiblingNodes(Sibling(n, removed))
  {
  }

  lemma {:induction false} LeavesOverAlike(p: seq<Node>, q: seq<Node>, key: Path, p': seq<Node>,
      q': seq<Node>, key': Path,
      others: set<Node>, more: set<Node>)
    requires LeaveAlike(p, key, p', key') && LeaveAlike(q, key, q', key')
    requires LeavesOver(p', key', q', others) && others <= more
    ensures LeavesOver(p, key, q, more)
  {
  }

  lemma {:induction false} ExitAfterInsert(n: Node, inserted: Path, value: Value, key: Path)
    requires WellFormed(n, |inserted|) && |key| == |inserted|
    ensures var m := Insert(n, inserted, value);
            LeavesOver(Proof(m, key), key, Proof(n, key), Below(m, inserted))
    decreases |key|
  {
    if key != [] {
      var m := Insert(n, inserted, value);
      InsertByChild(n, inserted, value);
      var above, below := Child(n, key[0]), Child(m, key[0]);
      if below.None? {
        LeavesHere(m, key);
        BelowByChild(m, inserted);
      } else {
        ExitByChild(m, key);
        if above.None? {
          assert below == Some(Leaf(inserted[1..], value));
        } else {
          ExitByChild(n, key);
          if key[0] == inserted[0] {
            ExitAfterInsert(above.value, inserted[1..], value, key[1..]);
            BelowChild(m, inserted);
            LeavesOverAlike(Proof(m, key), Proof(n, key), key, Proof(below.value, key[1..]),
              Proof(above.value, key[1..]),
                            key[1..], Below(below.value, inserted[1..]), Below(m, inserted));
          }
        }
      }
    }
  }

  /** What a key's proof may leave over after an operation is what it left over before, the sibling of
      the operation's collapse, or a node that the operation has built. */
  lemma {:induction false} ExitAfterStep(t: Tree, op: Op, key: Path)
    requires WellFormedTree(t, |op.key|) && |key| == |op.key|
    ensures LeavesOver(ProofTree(Apply(t, op), key), key, ProofTree(t, key),
                       (set n | n in Built(t, op)) + if op.Delete? then SiblingNodes(SiblingTree(t, op.key)) else {})
  {
    if t.Some? {
      match op
      case Delete(removed) =>
        if Remove(t.value, removed).Some? {
          ExitAfterRemove(t.value, removed, key);
        }
      case Put(inserted, value) => ExitAfterInsert(t.value, inserted, value, key);
    }
  }

  /** The key has nothing left over that is unknown. */
  predicate NothingHidden(store: Store, t: Tree, key: Path) {
    !HidesBranch(store, ProofTree(t, key), key)
  }

  lemma {:induction false} StepHidesNothing(store: Store, t: Tree, op: Op, key: Path)
    requires WellFormedTree(t, |op.key|) && |key| == |op.key| && NothingHidden(store, t, key) &&
             CollapseAtHand(store, t, op)
    ensures NothingHidden(store + Index(Built(t, op)), Apply(t, op), key)
  {
    ExitAfterStep(t, op, key);
  }

  lemma {:induction false} NowOrLater(t: Tree, ops: seq<Op>, key: Path)
    requires PresentSometime(t, ops, key) && GetTree(t, key).None?
    ensures ops != [] && PresentSometime(Apply(t, ops[0]), ops[1..], key)
  {
    var i :| 0 <= i <= |ops| && GetTree(ApplyAll(t, ops[..i]), key).Some?;
    assert i != 0 by {
      assert ops[..0] == [];
    }
    assert ops[..i][1..] == ops[1..][..i - 1];
    assert ApplyAll(t, ops[..i]) == ApplyAll(Apply(t, ops[0]), ops[1..][..i - 1]);
  }

  /** The other half: if a replay runs to its end, then no key that was present at some time during the
      batch hides a branch in its final proof, except one that the batch has built. */
  lemma {:induction false} EndHidesNothing(store: Store, t: Tree, touched: set<Path>, ops: seq<Op>, len: nat, key: Path)
    requires Consistent(store) && WellFormedTree(t, len) && Sized(touched, len) && Holding(store, t, touched)
    requires forall op :: op in ops ==> op.key in touched
    requires |key| == len && (NothingHidden(store, t, key) || PresentSometime(t, ops, key))
    ensures var end := PartialApplyAll(PartialTree(RootOf(t), store), ops);
            end.Ok? ==> NothingHidden(end.value.store, ApplyAll(t, ops), key)
    decreases |ops|
  {
    if GetTree(t, key).Some? {
      PresentNeverLeaves(t.value, key);
    } else if !NothingHidden(store, t, key) {
      NowOrLater(t, ops, key);
    }
    if ops != [] {
      var op := ops[0];
      assert op in ops;
      StepRefines(store, t, op);
      if CollapseAtHand(store, t, op) {
        StepKeepsHolding(store, t, op, touched);
        ApplyWellFormed(t, op);
        if NothingHidden(store, t, key) {
          StepHidesNothing(store, t, op, key);
        }
        EndHidesNothing(store + Index(Built(t, op)), Apply(t, op), touched, ops[1..], len, key);
      }
    }
  }

  /** Some key that was present at some time during the batch hides a branch in its final proof. */
  ghost predicate SomethingHidden(store: Store, pre: Tree, touched: set<Path>, ops: seq<Op>) {
    exists key :: key in touched && PresentSometime(pre, ops, key) && !NothingHidden(store, ApplyAll(pre, ops), key)
  }

  /** Both halves: on a witness, a batch whose collapses can be seen at the end stops only if some final
      proof hides a branch from the witness, and runs to its end only if none hides one from the witness
      and the nodes that the batch has built. */
  lemma {:induction false} HiddenDecides(store: Store, pre: Tree, touched: set<Path>, ops: seq<Op>, len: nat)
    requires Consistent(store) && WellFormedTree(pre, len) && Sized(touched, len)
    requires forall op :: op in ops ==> op.key in touched
    requires Carries(store, pre, touched, ApplyAll(pre, ops)) && VisibleAtTheEnd(store, pre, ops)
    ensures match PartialApplyAll(PartialTree(RootOf(pre), store), ops)
            case Missing(_) => SomethingHidden(store, pre, touched, ops)
            case Ok(end) => !SomethingHidden(end.store, pre, touched, ops)
  {
    StopIsHidden(store, pre, touched, ops, len);
    forall key | key in touched && PresentSometime(pre, ops, key)
      ensures var end := PartialApplyAll(PartialTree(RootOf(pre), store), ops);
              end.Ok? ==> NothingHidden(end.value.store, ApplyAll(pre, ops), key)
    {
      EndHidesNothing(store, pre, touched, ops, len, key);
    }
  }
}
