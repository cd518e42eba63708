/** Operations on a partial trie agree with those on the complete one whenever the nodes they read
    are at hand, and removal stops exactly when the sibling of a collapse is not. */
module PartialTrieLaws {
  import opened Options
  import opened Trie
  import opened TrieLaws
  import opened PartialTrie

  lemma {:induction false} ProofOfGraft(prefix: Path, n: Node, key: Path)
    ensures Proof(Graft(prefix, n), prefix + key) == GraftBuilt(prefix, n, Proof(n, key))
  {
    assert (prefix + key)[|prefix|..] == key;
    if n.Extension? {
      assert prefix + n.path <= prefix + key <==> n.path <= key by {
        if prefix + n.path <= prefix + key {
          assert n.path == (prefix + n.path)[|prefix|..] == (prefix + key)[|prefix|..][..|n.path|];
        }
      }
      assert n.path <= key ==> (prefix + key)[|prefix + n.path|..] == key[|n.path|..];
    }
  }

  ghost predicate SiblingAtHand(store: Store, n: Node, key: Path) {
    Sibling(n, key).Some? ==> Sibling(n, key).value.digest in store
  }

  ghost predicate RemovalAgrees(store: Store, n: Node, key: Path)
    requires Consistent(store)
  {
    Removal(store, n, key) ==
    if SiblingAtHand(store, n, key) then Ok(Edit(Remove(n, key), ProofTree(Remove(n, key), key)))
    else Missing(Sibling(n, key).value.digest)
  }

  /** Given the key's own proof, removal from a partial trie gives the trie that removal from the
      complete one gives, with exactly the nodes of the new proof built, unless the branch that
      collapses has an unknown sibling; then it reports that sibling. */
  lemma {:induction false} RemovalRefines(store: Store, n: Node, key: Path)
    requires WellFormed(n, |key|) && Consistent(store) && Holds(store, Proof(n, key)[1..])
    ensures RemovalAgrees(store, n, key)
    decreases n
  {
    if n.Extension? && n.path <= key {
      var below, rest := n.child.preimage, key[|n.path|..];
      assert below in Proof(n, key)[1..];
      assert Holds(store, Proof(below, rest)[1..]);
      RemovalRefines(store, below, rest);
      RemovalAlongPath(store, n, key);
    } else if n.Branch? && n.children[key[0]].Some? {
      var below, rest := n.children[key[0]].value.preimage, key[1..];
      assert below in Proof(n, key)[1..];
      assert Holds(store, Proof(below, rest)[1..]);
      RemovalRefines(store, below, rest);
      RemovalInBranch(store, n, key);
    }
  }

  lemma {:induction false} RemovalAlongPath(store: Store, n: Node, key: Path)
    requires Consistent(store) && n.Extension? && n.path <= key && n.child in store
    requires RemovalAgrees(store, n.child.preimage, key[|n.path|..])
    ensures RemovalAgrees(store, n, key)
  {
    var below, rest := n.child.preimage, key[|n.path|..];
    if Remove(below, rest).Some? {
      ProofOfGraft(n.path, Remove(below, rest).value, rest);
      assert key == n.path + rest;
    }
  }

  lemma {:induction false} RemovalInBranch(store: Store, n: Node, key: Path)
    requires WellFormed(n, |key|) && Consistent(store) && n.Branch? && n.children[key[0]].Some? &&
             n.children[key[0]].value in store
    requires RemovalAgrees(store, n.children[key[0]].value.preimage, key[1..])
    ensures RemovalAgrees(store, n, key)
  {
    var below, rest := n.children[key[0]].value.preimage, key[1..];
    if Remove(below, rest).None? {
      EmptiedHasNoSibling(below, rest);
      CollapsingRefines(store, n.children[key[0] := None], key);
    }
  }

  lemma {:induction false} EmptiedHasNoSibling(n: Node, key: Path)
    requires WellFormed(n, |key|) && Remove(n, key).None?
    ensures n.Leaf?
    decreases n
  {
    if n.Branch? {
      RemoveByChild(n, key);
    } else if n.Extension? {
      RemoveFromExtension(n, key);
    }
  }

  lemma {:induction false} CollapsingRefines(store: Store, rest: seq<Option<Digest>>, key: Path)
    requires Consistent(store) && key != [] && Slot(rest, key[0]).None?
    ensures var live := Live(rest);
            if |live| == 1 && rest[live[0]].value !in store
            then Collapsing(store, rest) == Missing(rest[live[0]].value)
            else Collapsing(store, rest) == Ok(Edit(Collapse(rest), ProofTree(Collapse(rest), key)))
  {
    var live := Live(rest);
    if |live| == 1 && rest[live[0]].value in store {
      assert live[0] != key[0];
    }
  }

  ghost predicate InsertionAgrees(store: Store, n: Node, key: Path, value: Value) {
    Insertion(store, n, key, value) ==
    Ok(Edit(Some(Insert(n, key, value)), Proof(Insert(n, key, value), key) + SplitOff(n, key)))
  }

  /** Insertion and update need nothing beyond the key's own proof. */
  lemma {:induction false} InsertionRefines(store: Store, n: Node, key: Path, value: Value)
    requires WellFormed(n, |key|) && Consistent(store) && Holds(store, Proof(n, key)[1..])
    ensures InsertionAgrees(store, n, key, value)
    decreases |key|
  {
    if key != [] {
      ProofByChild(n, key);
      ChildWellFormed(n, |key|, key[0]);
      if Child(n, key[0]).Some? {
        var below := Child(n, key[0]).value;
        assert Holds(store, Proof(below, key[1..])[1..]);
        assert n.Branch? || below.Branch? ==> below in Proof(n, key)[1..];
        InsertionRefines(store, below, key[1..], value);
        if n.Branch? {
          InsertionInBranch(store, n, key, value, below);
        } else {
          InsertionAlongPath(store, n, key, value);
        }
      } else {
        InsertionAtGap(store, n, key, value);
      }
    } else {
      var m := Insert(n, key, value);
      assert [m] + SplitOff(n, key) == [m];
    }
  }

  lemma {:induction false} InsertionInBranch(store: Store, n: Node, key: Path, value: Value, below: Node)
    requires key != [] && n.Branch? && Slot(n.children, key[0]) == Some(Keccak(below))
    requires Fetch(store, Keccak(below)) == Ok(below)
    requires InsertionAgrees(store, below, key[1..], value)
    ensures InsertionAgrees(store, n, key, value)
  {
    var inserted := Insert(below, key[1..], value);
    var m := Branch(n.children[key[0] := Some(Keccak(inserted))]);
    var proof, split := Proof(inserted, key[1..]), SplitOff(below, key[1..]);
    assert Insertion(store, n, key, value) == Ok(Edit(Some(m), [m] + (proof + split)));
    assert Proof(m, key) == [m] + proof by {
      assert Slot(m.children, key[0]) == Some(Keccak(inserted));
    }
    assert [m] + (proof + split) == ([m] + proof) + split;
  }

  lemma {:induction false} InsertionAlongPath(store: Store, n: Node, key: Path, value: Value)
    requires key != [] && WellFormed(n, |key|) && Consistent(store) && !n.Branch? && n.path[0] == key[0]
    requires Stump(n) == [] ==> Keccak(Behead(n)) in store
    requires InsertionAgrees(store, Behead(n), key[1..], value)
    ensures InsertionAgrees(store, n, key, value)
  {
    var below := Insert(Behead(n), key[1..], value);
    var proof := Proof(below, key[1..]);
    ProofOfGraft([key[0]], below, key[1..]);
    assert key == [key[0]] + key[1..];
    GraftBuiltAppend([key[0]], below, proof, SplitOff(n, key));
  }

  lemma {:induction false} GraftBuiltAppend(prefix: Path, below: Node, built: seq<Node>, more: seq<Node>)
    requires built != []
    ensures GraftBuilt(prefix, below, built + more) == GraftBuilt(prefix, below, built) + more
  {
    assert (built + more)[1..] == built[1..] + more;
  }

  lemma {:induction false} InsertionAtGap(store: Store, n: Node, key: Path, value: Value)
    requires key != [] && WellFormed(n, |key|) && Child(n, key[0]).None?
    ensures InsertionAgrees(store, n, key, value)
  {
    var leaf := Leaf(key[1..], value);
    var m := Insert(n, key, value);
    assert m.Branch? && Slot(m.children, key[0]) == Some(Keccak(leaf));
    assert Proof(leaf, key[1..]) == [leaf];
    assert Proof(m, key) == [m, leaf];
    if n.Branch? {
      assert [m, leaf] + SplitOff(n, key) == [m, leaf];
    } else {
      assert n.path[0] != key[0];
    }
  }

  // ----------------------------------------------------------- proofs of the other keys

  /** The nodes strictly below n on the way along key. */
  ghost function Below(n: Node, key: Path): set<Node> {
    set z | z in Proof(n, key)[1..]
  }

  ghost function BelowTree(t: Tree, key: Path): set<Node> {
    if t.None? then {} else Below(t.value, key)
  }

  lemma {:induction false} BelowByChild(n: Node, key: Path)
    requires key != [] && WellFormed(n, |key|)
    ensures Child(n, key[0]).None? ==> Below(n, key) == {}
    ensures Child(n, key[0]).Some? ==>
              var m := Child(n, key[0]).value;
              Below(n, key) == (if n.Branch? || m.Branch? then {m} else {}) + Below(m, key[1..])
  {
    ProofByChild(n, key);
    if Child(n, key[0]).Some? {
      var p := Proof(Child(n, key[0]).value, key[1..]);
      assert p == [p[0]] + p[1..];
    }
  }

  /** One nibble up: another key that shares the edited key's first nibble. */
  lemma {:induction false} BelowSameNibble(n: Node, m: Node, key: Path, other: Path, extra: set<Node>)
    requires key != [] && |other| == |key| && other[0] == key[0]
    requires WellFormed(n, |key|) && WellFormed(m, |key|)
    requires BelowTree(Child(m, key[0]), other[1..]) <=
             BelowTree(Child(n, key[0]), other[1..]) + BelowTree(Child(m, key[0]), key[1..]) + extra
    ensures Below(m, other) <= Below(n, other) + Below(m, key) + extra
  {
    BelowByChild(m, other);
    BelowByChild(n, other);
    BelowByChild(m, key);
  }

  /** One nibble up: another key that leaves the edited key here. */
  lemma {:induction false} BelowOtherNibble(n: Node, m: Node, other: Path, extra: set<Node>)
    requires other != [] && WellFormed(n, |other|) && WellFormed(m, |other|)
    requires Child(m, other[0]) == Child(n, other[0])
    requires m.Branch? && !n.Branch? && Child(n, other[0]).Some? && !Child(n, other[0]).value.Branch? ==>
             Child(n, other[0]).value in extra
    ensures Below(m, other) <= Below(n, other) + extra
  {
    BelowByChild(m, other);
    BelowByChild(n, other);
  }

  /** After a removal every node below the root on the way to another key was there before or is
      on the way to the removed key. */
  lemma {:induction false} ProofAfterRemove(n: Node, key: Path, other: Path)
    requires WellFormed(n, |key|) && |other| == |key|
    ensures BelowTree(Remove(n, key), other) <= Below(n, other) + BelowTree(Remove(n, key), key)
    decreases |key|
  {
    if key != [] && Remove(n, key).Some? {
      var m := Remove(n, key).value;
      RemoveByChild(n, key);
      if other[0] != key[0] {
        BelowOtherNibble(n, m, other, {});
      } else {
        ChildWellFormed(n, |key|, key[0]);
        if Child(n, key[0]).Some? {
          ProofAfterRemove(Child(n, key[0]).value, key[1..], other[1..]);
        }
        BelowSameNibble(n, m, key, other, {});
      }
    }
  }

  /** After an insertion every node below the root on the way to another key was there before, or
      is on the way to the inserted key, or is the node split off beside it. */
  lemma {:induction false} ProofAfterInsert(n: Node, key: Path, value: Value, other: Path)
    requires WellFormed(n, |key|) && |other| == |key|
    ensures InsertKeepsBelow(n, key, value, other)
    decreases |key|
  {
    if key != [] {
      if other[0] != key[0] {
        LeavesInsertHere(n, key, value, other);
      } else {
        ChildWellFormed(n, |key|, key[0]);
        if Child(n, key[0]).Some? {
          ProofAfterInsert(Child(n, key[0]).value, key[1..], value, other[1..]);
        }
        GoesAlongInsert(n, key, value, other);
      }
    }
  }

  ghost predicate InsertKeepsBelow(n: Node, key: Path, value: Value, other: Path) {
    Below(Insert(n, key, value), other) <=
      Below(n, other) + Below(Insert(n, key, value), key) + set z | z in SplitOff(n, key)
  }

  lemma {:induction false} GoesAlongInsert(n: Node, key: Path, value: Value, other: Path)
    requires key != [] && WellFormed(n, |key|) && |other| == |key| && other[0] == key[0]
    requires Child(n, key[0]).Some? ==> InsertKeepsBelow(Child(n, key[0]).value, key[1..], value, other[1..])
    ensures InsertKeepsBelow(n, key, value, other)
  {
    InsertByChild(n, key, value);
    BelowSameNibble(n, Insert(n, key, value), key, other, set z | z in SplitOff(n, key));
  }

  lemma {:induction false} LeavesInsertHere(n: Node, key: Path, value: Value, other: Path)
    requires key != [] && WellFormed(n, |key|) && |other| == |key| && other[0] != key[0]
    ensures Below(Insert(n, key, value), other) <= Below(n, other) + set z | z in SplitOff(n, key)
  {
    InsertByChild(n, key, value);
    if Child(n, other[0]).Some? {
      NewlyExposed(n, key, value, other[0]);
    }
    BelowOtherNibble(n, Insert(n, key, value), other, set z | z in SplitOff(n, key));
  }

  lemma {:induction false} NewlyExposed(n: Node, key: Path, value: Value, y: Nibble)
    requires key != [] && y != key[0] && WellFormed(n, |key|) && Child(n, y).Some?
    ensures Insert(n, key, value).Branch? && !n.Branch? && !Child(n, y).value.Branch? ==>
            Child(n, y).value in SplitOff(n, key)
  {
  }

  // ------------------------------------------------------------- with any nodes at hand

  /** A removal that gets through has done what it does on the complete trie. */
  lemma {:induction false} RemovalIsRight(store: Store, n: Node, key: Path)
    requires Consistent(store)
    ensures Removal(store, n, key).Ok? ==> Removal(store, n, key).value.node == Remove(n, key)
    decreases n
  {
    if n.Extension? && n.path <= key && n.child in store {
      RemovalIsRight(store, n.child.preimage, key[|n.path|..]);
    } else if n.Branch? && key != [] && Slot(n.children, key[0]).Some? && n.children[key[0]].value in store {
      RemovalIsRight(store, n.children[key[0]].value.preimage, key[1..]);
    }
  }

  /** So has an insertion. */
  lemma {:induction false} InsertionIsRight(store: Store, n: Node, key: Path, value: Value)
    requires Consistent(store)
    ensures Insertion(store, n, key, value).Ok? ==>
              Insertion(store, n, key, value).value.node == Some(Insert(n, key, value))
    decreases |key|
  {
    if key != [] && n.Branch? && Slot(n.children, key[0]).Some? {
      InsertionIsRight(store, n.children[key[0]].value.preimage, key[1..], value);
    } else if key != [] && !n.Branch? && n.path != [] && n.path[0] == key[0] {
      InsertionIsRight(store, Behead(n), key[1..], value);
    }
  }
}
