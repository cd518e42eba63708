/** A block's account or storage updates, replayed on the partial trie of a witness. */
module Batch {
  import opened Options
  import opened Trie
  import opened TrieLaws
  import opened PartialTrie
  import opened PartialTrieLaws
  import opened Witness

  datatype Op = Delete(key: Path) | Put(key: Path, value: Value)

  // --------------------------------------------------------------- on the complete trie

  function Apply(t: Tree, op: Op): Tree {
    match op
    case Delete(key) => RemoveTree(t, key)
    case Put(key, value) => InsertTree(t, key, value)
  }

  function ApplyAll(t: Tree, ops: seq<Op>): Tree
    decreases |ops|
  {
    if ops == [] then t else ApplyAll(Apply(t, ops[0]), ops[1..])
  }

  /** The nodes an operation adds to the ones in memory. */
  function Built(t: Tree, op: Op): seq<Node> {
    ProofTree(Apply(t, op), op.key) + if op.Put? && t.Some? then SplitOff(t.value, op.key) else []
  }

  // ---------------------------------------------------------------- on the partial trie

  datatype PartialTree = PartialTree(root: Option<Digest>, store: Store)

  function PartialApply(p: PartialTree, op: Op): (r: Result<PartialTree>)
    requires Consistent(p.store)
    ensures r.Ok? ==> Consistent(r.value.store)
  {
    if p.root.None? then
      (match op
       case Delete(_) => Ok(p)
       case Put(key, value) => Ok(Commit(p.store, Edit(Some(Leaf(key, value)), [Leaf(key, value)]))))
    else
      (match Fetch(p.store, p.root.value)
       case Missing(d) => Missing(d)
       case Ok(n) =>
         (match (match op
                 case Delete(key) => Removal(p.store, n, key)
                 case Put(key, value) => Insertion(p.store, n, key, value))
          case Missing(d) => Missing(d)
          case Ok(edit) => Ok(Commit(p.store, edit))))
  }

  function Commit(store: Store, edit: Edit): (p: PartialTree)
    ensures Consistent(store) ==> Consistent(p.store)
  {
    PartialTree(RootOf(edit.node), store + Index(edit.built))
  }

  function PartialApplyAll(p: PartialTree, ops: seq<Op>): Result<PartialTree>
    requires Consistent(p.store)
    decreases |ops|
  {
    if ops == [] then Ok(p)
    else (match PartialApply(p, ops[0])
          case Missing(d) => Missing(d)
          case Ok(next) => PartialApplyAll(next, ops[1..]))
  }

  // --------------------------------------------------------------------------- one step

  /** The proofs of all touched keys are at hand. */
  ghost predicate Holding(store: Store, t: Tree, touched: set<Path>) {
    forall key :: key in touched ==> Holds(store, ProofTree(t, key))
  }

  ghost predicate Sized(touched: set<Path>, len: nat) {
    forall key :: key in touched ==> |key| == len
  }

  ghost predicate CollapseAtHand(store: Store, t: Tree, op: Op) {
    op.Delete? && SiblingTree(t, op.key).Some? ==> SiblingTree(t, op.key).value.digest in store
  }

  lemma {:induction false} ApplyWellFormed(t: Tree, op: Op)
    requires WellFormedTree(t, |op.key|)
    ensures WellFormedTree(Apply(t, op), |op.key|)
  {
    match op
    case Delete(key) => GetAfterRemove(t, key, key);
    case Put(key, value) => GetAfterInsert(t, key, value, key);
  }

  /** An operation on the partial trie either does what it does on the complete one, or asks for
      the collapse's sibling. */
  lemma {:induction false} StepRefines(store: Store, t: Tree, op: Op)
    requires Consistent(store) && WellFormedTree(t, |op.key|) && Holds(store, ProofTree(t, op.key))
    ensures CollapseAtHand(store, t, op) ==>
              PartialApply(PartialTree(RootOf(t), store), op) ==
              Ok(PartialTree(RootOf(Apply(t, op)), store + Index(Built(t, op))))
    ensures !CollapseAtHand(store, t, op) ==>
              PartialApply(PartialTree(RootOf(t), store), op) == Missing(SiblingTree(t, op.key).value.digest)
  {
    if t.None? {
      assert store + Index([]) == store;
      if op.Put? {
        assert Built(t, op) == [Leaf(op.key, op.value)];
      } else {
        assert Built(t, op) == [];
      }
    } else {
      assert t.value in ProofTree(t, op.key);
      match op
      case Delete(key) =>
        RemovalRefines(store, t.value, key);
        assert Built(t, op) == ProofTree(Remove(t.value, key), key);
      case Put(key, value) =>
        InsertionRefines(store, t.value, key, value);
        assert Built(t, op) == Proof(Insert(t.value, key, value), key) + SplitOff(t.value, key);
    }
  }

  lemma {:induction false} StepKeepsProof(store: Store, t: Tree, op: Op, other: Path)
    requires WellFormedTree(t, |op.key|) && |other| == |op.key|
    requires Holds(store, ProofTree(t, other))
    ensures Holds(store + Index(Built(t, op)), ProofTree(Apply(t, op), other))
  {
    if Apply(t, op).Some? {
      var m := Apply(t, op).value;
      assert m in Proof(m, op.key);
      if t.Some? {
        match op
        case Delete(key) => ProofAfterRemove(t.value, key, other);
        case Put(key, value) => ProofAfterInsert(t.value, key, value, other);
      }
      assert Below(m, other) <= BelowTree(t, other) + Below(m, op.key) + set z | z in Built(t, op);
      forall z | z in Proof(m, other) ensures z in Built(t, op) || z in ProofTree(t, other) {
        if z != m {
          assert Proof(m, other) == [m] + Proof(m, other)[1..];
          assert z in Below(m, other);
        }
      }
    }
  }

  lemma {:induction false} StepKeepsHolding(store: Store, t: Tree, op: Op, touched: set<Path>)
    requires WellFormedTree(t, |op.key|) && Sized(touched, |op.key|) && Holding(store, t, touched)
    ensures Holding(store + Index(Built(t, op)), Apply(t, op), touched)
  {
    forall key | key in touched
      ensures Holds(store + Index(Built(t, op)), ProofTree(Apply(t, op), key))
    {
      StepKeepsProof(store, t, op, key);
    }
  }

  // -------------------------------------------------------------------------- the block

  /** The witness: initial proofs of every touched key, and the potential child nodes read off its
      proof in the trie the block leaves. */
  ghost predicate Carries(store: Store, pre: Tree, touched: set<Path>, post: Tree) {
    && Holding(store, pre, touched)
    && forall key :: key in touched ==> Holds(store, Potential(ProofTree(post, key), key))
  }

  /** No collapse runs onto a branch that is not at hand. */
  ghost predicate NoUnknownBranch(store: Store, t: Tree, ops: seq<Op>)
    decreases |ops|
  {
    ops != [] ==>
      && (!CollapseAtHand(store, t, ops[0]) ==> !SiblingTree(t, ops[0].key).value.digest.preimage.Branch?)
      && NoUnknownBranch(store + Index(Built(t, ops[0])), Apply(t, ops[0]), ops[1..])
  }

  /** No operation adds a new key below the given position. */
  ghost predicate QuietBelow(t: Tree, ops: seq<Op>, at: Path)
    decreases |ops|
  {
    ops != [] ==>
      && (ops[0].Put? && at <= ops[0].key ==> GetTree(t, ops[0].key).Some?)
      && QuietBelow(Apply(t, ops[0]), ops[1..], at)
  }

  /** A branch collapsed onto a sibling that was never read does not get new keys later. */
  ghost predicate NoRefill(store: Store, t: Tree, ops: seq<Op>)
    decreases |ops|
  {
    ops != [] ==>
      && (!CollapseAtHand(store, t, ops[0]) ==>
            QuietBelow(Apply(t, ops[0]), ops[1..], SiblingTree(t, ops[0].key).value.at))
      && NoRefill(store + Index(Built(t, ops[0])), Apply(t, ops[0]), ops[1..])
  }

  /** Where the branch collapsed there is only its sibling. */
  ghost predicate ShownBy(post: Tree, h: Hidden) {
    Sub(post, h.at) == Some(Graft([h.slot], h.digest.preimage))
  }

  /** The first collapse onto a node that is not at hand, if there is one, can still be seen in the trie
      that the batch leaves. */
  ghost predicate VisibleAtTheEnd(store: Store, t: Tree, ops: seq<Op>)
    decreases |ops|
  {
    ops != [] ==>
      if CollapseAtHand(store, t, ops[0])
      then VisibleAtTheEnd(store + Index(Built(t, ops[0])), Apply(t, ops[0]), ops[1..])
      else ShownBy(ApplyAll(t, ops), SiblingTree(t, ops[0].key).value)
  }

  /** The first collapse onto a leaf or extension that is not at hand, if there is one, can still be
      seen in the trie that the batch leaves. */
  ghost predicate ShownAtTheEnd(store: Store, t: Tree, ops: seq<Op>)
    decreases |ops|
  {
    ops != [] ==>
      if CollapseAtHand(store, t, ops[0])
      then ShownAtTheEnd(store + Index(Built(t, ops[0])), Apply(t, ops[0]), ops[1..])
      else SiblingTree(t, ops[0].key).value.digest.preimage.Branch? ||
           ShownBy(ApplyAll(t, ops), SiblingTree(t, ops[0].key).value)
  }

  /** What lies alone below a position stays there while nothing is added beside it and nobody
      touches it. */
  lemma {:induction false} LoneSiblingStays(t: Tree, ops: seq<Op>, at: Path, slot: Nibble, sibling: Node, len: nat)
    requires WellFormedTree(t, len) && |at| < len
    requires forall op :: op in ops ==> |op.key| == len && !(at + [slot] <= op.key)
    requires QuietBelow(t, ops, at) && Sub(t, at) == Some(Graft([slot], sibling))
    ensures Sub(ApplyAll(t, ops), at) == Some(Graft([slot], sibling))
    decreases |ops|
  {
    if ops != [] {
      var op := ops[0];
      assert op in ops;
      ApplyWellFormed(t, op);
      if at <= op.key {
        AbsentBeside(t, op.key, at, slot, sibling);
      }
      forall key: Path | |key| == len && at <= key
        ensures GetTree(t, key) == GetTree(Apply(t, op), key)
      {
        match op
        case Delete(removed) => GetAfterRemove(t, removed, key);
        case Put(inserted, value) => GetAfterInsert(t, inserted, value, key);
      }
      SameBelow(t, Apply(t, op), at, len);
      LoneSiblingStays(Apply(t, op), ops[1..], at, slot, sibling, len);
    }
  }

  lemma {:induction false} AbsentBeside(t: Tree, key: Path, at: Path, slot: Nibble, sibling: Node)
    requires WellFormedTree(t, |key|) && |at| < |key| && at <= key && !(at + [slot] <= key)
    requires Sub(t, at) == Some(Graft([slot], sibling))
    ensures GetTree(t, key) == None
  {
    var rest := key[|at|..];
    assert key == at + rest;
    GetBySub(t, at, rest);
    SubWellFormed(t, at, |key|);
    assert rest[0] != slot by {
      assert at + [rest[0]] <= key;
    }
    GetByChild(Sub(t, at).value, rest);
  }

  /** The child of a branch is at hand if a touched key passes through it. */
  lemma {:induction false} TouchedChildAtHand(store: Store, t: Tree, touched: set<Path>, h: Hidden, key: Path)
    requires WellFormedTree(t, |key|) && Holding(store, t, touched) && key in touched
    requires |h.at| < |key| && Sub(t, h.at).Some? && Sub(t, h.at).value.Branch?
    requires Child(Sub(t, h.at).value, h.slot) == Some(h.digest.preimage)
    ensures h.at + [h.slot] <= key ==> h.digest in store
  {
    if h.at + [h.slot] <= key {
      SubOfEmpty(h.at);
      var rest := key[|h.at|..];
      assert key == h.at + rest;
      assert rest[0] == (h.at + [h.slot])[|h.at|];
      ChildOnProof(t.value, h.at, rest, h.digest.preimage);
      assert h.digest.preimage in ProofTree(t, key);
    }
  }

  /** A collapse whose sibling is not at hand, and beside which nothing is added afterwards, can still
      be seen at the end of the batch. */
  lemma {:induction false} QuietCollapseIsShown(store: Store, t: Tree, ops: seq<Op>, touched: set<Path>)
    requires ops != [] && WellFormedTree(t, |ops[0].key|) && Sized(touched, |ops[0].key|)
    requires forall op :: op in ops ==> op.key in touched
    requires Holding(store, t, touched) && !CollapseAtHand(store, t, ops[0])
    requires QuietBelow(Apply(t, ops[0]), ops[1..], SiblingTree(t, ops[0].key).value.at)
    ensures ShownBy(ApplyAll(t, ops), SiblingTree(t, ops[0].key).value)
  {
    var key := ops[0].key;
    var h := SiblingTree(t, key).value;
    CollapsePosition(t.value, key);
    ApplyWellFormed(t, ops[0]);
    forall op | op in ops[1..] ensures |op.key| == |key| && !(h.at + [h.slot] <= op.key) {
      TouchedChildAtHand(store, t, touched, h, op.key);
    }
    LoneSiblingStays(Apply(t, ops[0]), ops[1..], h.at, h.slot, h.digest.preimage, |key|);
  }

  /** A collapse that needs an unknown leaf or extension, and is still to be seen at the end of the
      batch, finds it among the potential child nodes. */
  lemma {:induction false} CollapseIsAtHand(store: Store, t: Tree, ops: seq<Op>, touched: set<Path>)
    requires ops != [] && WellFormedTree(t, |ops[0].key|) && Sized(touched, |ops[0].key|)
    requires forall op :: op in ops ==> op.key in touched
    requires forall key :: key in touched ==> Holds(store, Potential(ProofTree(ApplyAll(t, ops), key), key))
    requires NoUnknownBranch(store, t, ops) && ShownAtTheEnd(store, t, ops)
    ensures CollapseAtHand(store, t, ops[0])
  {
    if !CollapseAtHand(store, t, ops[0]) {
      var key := ops[0].key;
      CollapsePosition(t.value, key);
      BatchWellFormed(t, ops, |key|);
      SiblingAmongPotential(ApplyAll(t, ops), key, SiblingTree(t, key).value);
    }
  }

  lemma {:induction false} BatchWellFormed(t: Tree, ops: seq<Op>, len: nat)
    requires WellFormedTree(t, len) && forall op :: op in ops ==> |op.key| == len
    ensures WellFormedTree(ApplyAll(t, ops), len)
    decreases |ops|
  {
    if ops != [] {
      assert ops[0] in ops;
      ApplyWellFormed(t, ops[0]);
      BatchWellFormed(Apply(t, ops[0]), ops[1..], len);
    }
  }

  /** Replayed on the complete trie, every collapse has its sibling among the nodes at hand by then. */
  ghost predicate AllAtHand(store: Store, t: Tree, ops: seq<Op>)
    decreases |ops|
  {
    ops != [] ==>
      && CollapseAtHand(store, t, ops[0])
      && AllAtHand(store + Index(Built(t, ops[0])), Apply(t, ops[0]), ops[1..])
  }

  /** Whatever the batch does and whatever else is missing: with the initial proofs alone, a replay
      runs to its end exactly if every collapse has its sibling at hand, and never ends with a wrong
      root. */
  lemma {:induction false} ReplayIsExact(store: Store, pre: Tree, touched: set<Path>, ops: seq<Op>, len: nat)
    requires Consistent(store) && WellFormedTree(pre, len) && Sized(touched, len) && Holding(store, pre, touched)
    requires forall op :: op in ops ==> op.key in touched
    ensures var end := PartialApplyAll(PartialTree(RootOf(pre), store), ops);
            && (end.Ok? <==> AllAtHand(store, pre, ops))
            && (end.Ok? ==> end.value.root == RootOf(ApplyAll(pre, ops)))
    decreases |ops|
  {
    if ops != [] {
      var op := ops[0];
      assert op in ops;
      StepRefines(store, pre, op);
      if CollapseAtHand(store, pre, op) {
        StepKeepsHolding(store, pre, op, touched);
        ApplyWellFormed(pre, op);
        ReplayIsExact(store + Index(Built(pre, op)), Apply(pre, op), touched, ops[1..], len);
      }
    }
  }

  /** A store that carries the witness has the siblings of all collapses, unless one of them is an
      unknown branch. */
  lemma {:induction false} WitnessHasSiblings(store: Store, pre: Tree, touched: set<Path>, ops: seq<Op>, len: nat)
    requires Consistent(store) && WellFormedTree(pre, len) && Sized(touched, len)
    requires forall op :: op in ops ==> op.key in touched
    requires Carries(store, pre, touched, ApplyAll(pre, ops))
    requires ShownAtTheEnd(store, pre, ops)
    ensures AllAtHand(store, pre, ops) <==> NoUnknownBranch(store, pre, ops)
    decreases |ops|
  {
    if ops != [] {
      var op := ops[0];
      assert op in ops;
      if NoUnknownBranch(store, pre, ops) {
        CollapseIsAtHand(store, pre, ops, touched);
      }
      if CollapseAtHand(store, pre, op) {
        StepKeepsHolding(store, pre, op, touched);
        ApplyWellFormed(pre, op);
        WitnessHasSiblings(store + Index(Built(pre, op)), Apply(pre, op), touched, ops[1..], len);
      }
    }
  }

  /** The main theorem.  Take any batch of deletions, insertions and updates, and any store that
      carries the witness for it.  If the collapses onto unknown leaves and extensions can still be
      seen at the end, then the batch runs to the end on the partial trie exactly if no collapse runs
      onto an unknown branch, and then it ends with the root of the complete post-state trie. */
  lemma {:induction false} WitnessDecides(store: Store, pre: Tree, touched: set<Path>, ops: seq<Op>, len: nat)
    requires Consistent(store) && WellFormedTree(pre, len) && Sized(touched, len)
    requires forall op :: op in ops ==> op.key in touched
    requires Carries(store, pre, touched, ApplyAll(pre, ops))
    requires ShownAtTheEnd(store, pre, ops)
    ensures var end := PartialApplyAll(PartialTree(RootOf(pre), store), ops);
            && (end.Ok? <==> NoUnknownBranch(store, pre, ops))
            && (end.Ok? ==> end.value.root == RootOf(ApplyAll(pre, ops)))
  {
    ReplayIsExact(store, pre, touched, ops, len);
    WitnessHasSiblings(store, pre, touched, ops, len);
  }

  /** How the replay of a batch on a partial trie ends: exactly when it gets through, in general and in
      case its collapses can be seen at the end, and with which root. */
  ghost predicate Decided(store: Store, pre: Tree, ops: seq<Op>)
    requires Consistent(store)
  {
    var end := PartialApplyAll(PartialTree(RootOf(pre), store), ops);
    && (end.Ok? <==> AllAtHand(store, pre, ops))
    && (ShownAtTheEnd(store, pre, ops) ==> (end.Ok? <==> NoUnknownBranch(store, pre, ops)))
    && (end.Ok? ==> end.value.root == RootOf(ApplyAll(pre, ops)))
  }

  /** The main theorem without its condition. */
  lemma {:induction false} ReplayDecided(store: Store, pre: Tree, touched: set<Path>, ops: seq<Op>, len: nat)
    requires Consistent(store) && WellFormedTree(pre, len) && Sized(touched, len)
    requires forall op :: op in ops ==> op.key in touched
    requires Carries(store, pre, touched, ApplyAll(pre, ops))
    ensures Decided(store, pre, ops)
  {
    ReplayIsExact(store, pre, touched, ops, len);
    if ShownAtTheEnd(store, pre, ops) {
      WitnessHasSiblings(store, pre, touched, ops, len);
    }
  }

  lemma {:induction false} VisibleIsShown(store: Store, pre: Tree, ops: seq<Op>)
    requires VisibleAtTheEnd(store, pre, ops)
    ensures ShownAtTheEnd(store, pre, ops)
    decreases |ops|
  {
    if ops != [] && CollapseAtHand(store, pre, ops[0]) {
      VisibleIsShown(store + Index(Built(pre, ops[0])), Apply(pre, ops[0]), ops[1..]);
    }
  }

  /** A batch that refills no collapsed branch shows its collapses at the end. */
  lemma {:induction false} NoRefillIsVisible(store: Store, pre: Tree, touched: set<Path>, ops: seq<Op>, len: nat)
    requires WellFormedTree(pre, len) && Sized(touched, len) && Holding(store, pre, touched)
    requires forall op :: op in ops ==> op.key in touched
    requires NoRefill(store, pre, ops)
    ensures VisibleAtTheEnd(store, pre, ops) && ShownAtTheEnd(store, pre, ops)
    decreases |ops|
  {
    if ops != [] {
      var op := ops[0];
      assert op in ops;
      if CollapseAtHand(store, pre, op) {
        StepKeepsHolding(store, pre, op, touched);
        ApplyWellFormed(pre, op);
        NoRefillIsVisible(store + Index(Built(pre, op)), Apply(pre, op), touched, ops[1..], len);
      } else {
        QuietCollapseIsShown(store, pre, ops, touched);
      }
    }
    VisibleIsShown(store, pre, ops);
  }

  // ------------------------------------------------------------------------- special cases

  /** Every insertion and update comes before every deletion. */
  predicate PutsFirst(ops: seq<Op>) {
    forall i, j :: 0 <= i < j < |ops| && ops[i].Delete? ==> ops[j].Delete?
  }

  lemma {:induction false} DeletionsAreQuiet(t: Tree, ops: seq<Op>, at: Path)
    requires forall op :: op in ops ==> op.Delete?
    ensures QuietBelow(t, ops, at)
    decreases |ops|
  {
    if ops != [] {
      assert ops[0] in ops;
      DeletionsAreQuiet(Apply(t, ops[0]), ops[1..], at);
    }
  }

  /** Whoever puts first and deletes afterwards never refills a collapsed branch. */
  lemma {:induction false} PutsFirstNoRefill(store: Store, t: Tree, ops: seq<Op>)
    requires PutsFirst(ops)
    ensures NoRefill(store, t, ops)
    decreases |ops|
  {
    if ops != [] {
      if !CollapseAtHand(store, t, ops[0]) {
        DeletionsAreQuiet(Apply(t, ops[0]), ops[1..], SiblingTree(t, ops[0].key).value.at);
      }
      PutsFirstNoRefill(store + Index(Built(t, ops[0])), Apply(t, ops[0]), ops[1..]);
    }
  }

  /** For a batch with its puts first the witness decides, whatever it puts and deletes. */
  lemma {:induction false} PutsFirstDecides(store: Store, pre: Tree, touched: set<Path>, ops: seq<Op>, len: nat)
    requires Consistent(store) && WellFormedTree(pre, len) && Sized(touched, len)
    requires forall op :: op in ops ==> op.key in touched
    requires Carries(store, pre, touched, ApplyAll(pre, ops))
    requires PutsFirst(ops)
    ensures var end := PartialApplyAll(PartialTree(RootOf(pre), store), ops);
            && (end.Ok? <==> NoUnknownBranch(store, pre, ops))
            && (end.Ok? ==> end.value.root == RootOf(ApplyAll(pre, ops)))
  {
    PutsFirstNoRefill(store, pre, ops);
    NoRefillIsVisible(store, pre, touched, ops, len);
    WitnessDecides(store, pre, touched, ops, len);
  }

  /** Only keys already present are put. */
  ghost predicate NoInsertions(t: Tree, ops: seq<Op>)
    decreases |ops|
  {
    ops != [] ==>
      && (ops[0].Put? ==> GetTree(t, ops[0].key).Some?)
      && NoInsertions(Apply(t, ops[0]), ops[1..])
  }

  lemma {:induction false} NoInsertionsIsQuiet(t: Tree, ops: seq<Op>, at: Path)
    requires NoInsertions(t, ops)
    ensures QuietBelow(t, ops, at)
    decreases |ops|
  {
    if ops != [] {
      NoInsertionsIsQuiet(Apply(t, ops[0]), ops[1..], at);
    }
  }

  lemma {:induction false} NoInsertionsNoRefill(store: Store, t: Tree, ops: seq<Op>)
    requires NoInsertions(t, ops)
    ensures NoRefill(store, t, ops)
    decreases |ops|
  {
    if ops != [] {
      if SiblingTree(t, ops[0].key).Some? {
        NoInsertionsIsQuiet(Apply(t, ops[0]), ops[1..], SiblingTree(t, ops[0].key).value.at);
      }
      NoInsertionsNoRefill(store + Index(Built(t, ops[0])), Apply(t, ops[0]), ops[1..]);
    }
  }

  /** Deletions and value updates alone need no condition on refilling. */
  lemma {:induction false} DeletionsAndUpdates(store: Store, pre: Tree, touched: set<Path>, ops: seq<Op>, len: nat)
    requires Consistent(store) && WellFormedTree(pre, len) && Sized(touched, len)
    requires forall op :: op in ops ==> op.key in touched
    requires Carries(store, pre, touched, ApplyAll(pre, ops))
    requires NoInsertions(pre, ops)
    ensures var end := PartialApplyAll(PartialTree(RootOf(pre), store), ops);
            && (end.Ok? <==> NoUnknownBranch(store, pre, ops))
            && (end.Ok? ==> end.value.root == RootOf(ApplyAll(pre, ops)))
  {
    NoInsertionsNoRefill(store, pre, ops);
    NoRefillIsVisible(store, pre, touched, ops, len);
    WitnessDecides(store, pre, touched, ops, len);
  }

  /** The witness's nodes and no others. */
  function WitnessNodes(pre: Tree, keys: seq<Path>, post: Tree): seq<Node> {
    if keys == [] then []
    else ProofTree(pre, keys[0]) + Potential(ProofTree(post, keys[0]), keys[0]) + WitnessNodes(pre, keys[1..], post)
  }

  /** A node that the witness has on account of some key: on its initial proof, or among the
      shortened forms of the last node of its final proof of absence. */
  ghost predicate FromWitness(pre: Tree, keys: seq<Path>, post: Tree, n: Node) {
    exists key :: key in keys && (n in ProofTree(pre, key) || (post.Some? && Shows(post.value, key, n)))
  }

  lemma {:induction false} WitnessNodesExactly(pre: Tree, keys: seq<Path>, post: Tree, n: Node)
    ensures n in WitnessNodes(pre, keys, post) <==> FromWitness(pre, keys, post, n)
  {
    if keys != [] {
      PotentialExactly(post, keys[0], n);
      WitnessNodesExactly(pre, keys[1..], post, n);
      if FromWitness(pre, keys[1..], post, n) {
        var key :| key in keys[1..] && (n in ProofTree(pre, key) || (post.Some? && Shows(post.value, key, n)));
        assert key in keys;
      }
      if key :| key in keys && (n in ProofTree(pre, key) || (post.Some? && Shows(post.value, key, n))) {
        assert key == keys[0] || key in keys[1..];
      }
    }
  }

  /** Every collapse's sibling is a node of the witness or was built by the batch before. */
  ghost predicate Supplied(given: Node -> bool, t: Tree, ops: seq<Op>, built: set<Node>)
    decreases |ops|
  {
    ops != [] ==>
      && (ops[0].Delete? && SiblingTree(t, ops[0].key).Some? ==>
            var n := SiblingTree(t, ops[0].key).value.digest.preimage; given(n) || n in built)
      && Supplied(given, Apply(t, ops[0]), ops[1..], built + set n | n in Built(t, ops[0]))
  }

  lemma {:induction false} SuppliedIsAtHand(given: Node -> bool, store: Store, t: Tree, ops: seq<Op>, built: set<Node>)
    requires forall n: Node :: Keccak(n) in store <==> given(n) || n in built
    ensures AllAtHand(store, t, ops) <==> Supplied(given, t, ops, built)
    decreases |ops|
  {
    if ops != [] {
      SuppliedIsAtHand(given, store + Index(Built(t, ops[0])), Apply(t, ops[0]), ops[1..],
                       built + set n | n in Built(t, ops[0]));
    }
  }

  /** Without any condition on the batch: on exactly its own witness it runs to the end if and only if
      every collapse's sibling is on an initial proof of a touched key, or is a shortened form of the
      last node of a touched key's final proof of absence, or was built by the batch before. */
  lemma {:induction false} WitnessReplayExactly(pre: Tree, keys: seq<Path>, ops: seq<Op>, len: nat)
    requires WellFormedTree(pre, len) && (forall key :: key in keys ==> |key| == len)
    requires forall op :: op in ops ==> op.key in keys
    ensures var post := ApplyAll(pre, ops);
            var end := PartialApplyAll(PartialTree(RootOf(pre), Index(WitnessNodes(pre, keys, post))), ops);
            && (end.Ok? <==> Supplied(n => FromWitness(pre, keys, post, n), pre, ops, {}))
            && (end.Ok? ==> end.value.root == RootOf(post))
  {
    var post := ApplyAll(pre, ops);
    var store := Index(WitnessNodes(pre, keys, post));
    WitnessNodesCarry(pre, keys, post);
    forall n: Node ensures Keccak(n) in store <==> FromWitness(pre, keys, post, n) {
      WitnessNodesExactly(pre, keys, post, n);
    }
    SuppliedIsAtHand(n => FromWitness(pre, keys, post, n), store, pre, ops, {});
    ReplayIsExact(store, pre, (set key | key in keys), ops, len);
  }

  lemma {:induction false} WitnessNodesCarry(pre: Tree, keys: seq<Path>, post: Tree)
    ensures Carries(Index(WitnessNodes(pre, keys, post)), pre, (set key | key in keys), post)
  {
    forall key | key in keys
      ensures forall n :: n in ProofTree(pre, key) || n in Potential(ProofTree(post, key), key) ==>
              n in WitnessNodes(pre, keys, post)
    {
      KeyNodesInWitness(pre, keys, post, key);
    }
  }

  lemma {:induction false} KeyNodesInWitness(pre: Tree, keys: seq<Path>, post: Tree, key: Path)
    requires key in keys
    ensures forall n :: n in ProofTree(pre, key) || n in Potential(ProofTree(post, key), key) ==>
            n in WitnessNodes(pre, keys, post)
  {
    if key != keys[0] {
      KeyNodesInWitness(pre, keys[1..], post, key);
    }
  }
}
