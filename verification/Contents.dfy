/** What a batch leaves under every key, and what its replay comes to, said without reference to how
    operations are carried out. */
module Contents {
  import opened Options
  import opened Trie
  import opened TrieLaws
  import opened PartialTrie
  import opened PartialTrieLaws
  import opened Witness
  import opened Batch

  predicate Untouched(ops: seq<Op>, key: Path) {
    forall i :: 0 <= i < |ops| ==> ops[i].key != key
  }

  /** Operation i is the last one on its key. */
  predicate LastOn(ops: seq<Op>, i: nat, key: Path) {
    i < |ops| && ops[i].key == key && forall j :: i < j < |ops| ==> ops[j].key != key
  }

  /** Under a key there is the value last put, nothing if it was deleted last, and what was there before
      if no operation is on it. */
  ghost predicate LeftUnder(ops: seq<Op>, key: Path, before: Option<Value>, after: Option<Value>) {
    && (Untouched(ops, key) ==> after == before)
    && (forall i: nat :: LastOn(ops, i, key) && ops[i].Put? ==> after == Some(ops[i].value))
    && (forall i: nat :: LastOn(ops, i, key) && ops[i].Delete? ==> after == None)
  }

  /** The batch turns the contents of the one trie into those of the other. */
  ghost predicate Leaves(pre: Tree, ops: seq<Op>, post: Tree, len: nat) {
    forall key: Path :: |key| == len ==> LeftUnder(ops, key, GetTree(pre, key), GetTree(post, key))
  }

  lemma {:induction false} LastOrUntouched(ops: seq<Op>, key: Path) returns (i: nat)
    ensures Untouched(ops, key) || LastOn(ops, i, key)
  {
    i := |ops|;
    while 0 < i && ops[i - 1].key != key
      invariant i <= |ops| && forall j :: i <= j < |ops| ==> ops[j].key != key
    {
      i := i - 1;
    }
    if 0 < i {
      i := i - 1;
    }
  }

  /** There is only one way to leave a key. */
  lemma {:induction false} LeftOnce(ops: seq<Op>, key: Path, before: Option<Value>, after: Option<Value>,
      other: Option<Value>)
    requires LeftUnder(ops, key, before, after) && LeftUnder(ops, key, before, other)
    ensures after == other
  {
    var i := LastOrUntouched(ops, key);
  }

  lemma {:induction false} FirstOfBatch(ops: seq<Op>, key: Path, before: Option<Value>, between: Option<Value>,
      after: Option<Value>)
    requires ops != [] && LeftUnder(ops[1..], key, between, after)
    requires between == if ops[0].key != key then before else if ops[0].Put? then Some(ops[0].value) else None
    ensures LeftUnder(ops, key, before, after)
  {
    forall i: nat | LastOn(ops, i, key)
      ensures after == if ops[i].Put? then Some(ops[i].value) else None
    {
      if i == 0 {
        assert Untouched(ops[1..], key);
      } else {
        assert LastOn(ops[1..], i - 1, key);
      }
    }
    if Untouched(ops, key) {
      assert Untouched(ops[1..], key);
    }
  }

  lemma {:induction false} ApplyLeaves(t: Tree, op: Op, key: Path)
    requires WellFormedTree(t, |key|) && |op.key| == |key|
    ensures WellFormedTree(Apply(t, op), |key|)
    ensures GetTree(Apply(t, op), key) ==
            if op.key != key then GetTree(t, key) else if op.Put? then Some(op.value) else None
  {
    match op
    case Delete(removed) => GetAfterRemove(t, removed, key);
    case Put(inserted, value) => GetAfterInsert(t, inserted, value, key);
  }

  /** Whatever the batch, it leaves under every key what was last put there. */
  lemma {:induction false} BatchLeaves(t: Tree, ops: seq<Op>, key: Path)
    requires WellFormedTree(t, |key|) && forall op :: op in ops ==> |op.key| == |key|
    ensures WellFormedTree(ApplyAll(t, ops), |key|)
    ensures LeftUnder(ops, key, GetTree(t, key), GetTree(ApplyAll(t, ops), key))
    decreases |ops|
  {
    if ops != [] {
      var op := ops[0];
      assert op in ops;
      ApplyLeaves(t, op, key);
      BatchLeaves(Apply(t, op), ops[1..], key);
      FirstOfBatch(ops, key, GetTree(t, key), GetTree(Apply(t, op), key), GetTree(ApplyAll(t, ops), key));
    }
  }

  /** And the contents decide: a trie is what the batch makes of the other exactly if it is well-formed
      and holds what the batch leaves. */
  lemma {:induction false} LeavesExactly(pre: Tree, ops: seq<Op>, post: Tree, len: nat)
    requires WellFormedTree(pre, len) && forall op :: op in ops ==> |op.key| == len
    ensures ApplyAll(pre, ops) == post <==> WellFormedTree(post, len) && Leaves(pre, ops, post, len)
  {
    BatchWellFormed(pre, ops, len);
    forall key: Path | |key| == len
      ensures LeftUnder(ops, key, GetTree(pre, key), GetTree(ApplyAll(pre, ops), key))
      ensures Leaves(pre, ops, post, len) ==> GetTree(ApplyAll(pre, ops), key) == GetTree(post, key)
    {
      BatchLeaves(pre, ops, key);
      if Leaves(pre, ops, post, len) {
        LeftOnce(ops, key, GetTree(pre, key), GetTree(post, key), GetTree(ApplyAll(pre, ops), key));
      }
    }
    if WellFormedTree(post, len) && Leaves(pre, ops, post, len) {
      Canonical(ApplyAll(pre, ops), post, len);
    }
  }

  // ------------------------------------------------------------------------ what is built

  lemma {:induction false} SplitOffInTrie(n: Node, key: Path, value: Value) returns (other: Path)
    requires WellFormed(n, |key|)
    ensures |other| == |key| && forall z :: z in SplitOff(n, key) ==> z in Below(Insert(n, key, value), other)
    decreases |key|
  {
    other := key;
    if SplitOff(n, key) != [] {
      var m := Insert(n, key, value);
      InsertByChild(n, key, value);
      if Child(n, key[0]).Some? {
        var rest := SplitOffInTrie(Child(n, key[0]).value, key[1..], value);
        other := [key[0]] + rest;
        BelowChild(m, other);
      } else {
        other := [n.path[0]] + key[1..];
        BelowChild(m, other);
      }
    }
  }

  /** An operation builds nothing but nodes of the trie that it leaves. */
  lemma {:induction false} BuiltIsInTrie(t: Tree, op: Op, n: Node)
    requires WellFormedTree(t, |op.key|) && n in Built(t, op)
    ensures exists key: Path :: |key| == |op.key| && n in ProofTree(Apply(t, op), key)
  {
    if n !in ProofTree(Apply(t, op), op.key) {
      var other := SplitOffInTrie(t.value, op.key, op.value);
      assert n in ProofTree(Apply(t, op), other);
    }
  }

  // --------------------------------------------------------------------------- replays

  /** The trie under a root. */
  function TrieUnder(root: Option<Digest>): Tree {
    if root.None? then None else Some(root.value.preimage)
  }

  function LookupTree(p: PartialTree, key: Path): Result<Option<Value>>
    requires Consistent(p.store)
  {
    if p.root.None? then Ok(None) else LookupRoot(p.store, p.root.value, key)
  }

  /** A step that is carried out does what it does on the complete trie, whatever nodes are at hand. */
  lemma {:induction false} StepIsRight(p: PartialTree, op: Op)
    requires Consistent(p.store)
    ensures var r := PartialApply(p, op);
            r.Ok? ==> r.value.root == RootOf(Apply(TrieUnder(p.root), op))
  {
    if p.root.Some? {
      match op
      case Delete(key) => RemovalIsRight(p.store, p.root.value.preimage, key);
      case Put(key, value) => InsertionIsRight(p.store, p.root.value.preimage, key, value);
    }
  }

  lemma {:induction false} ReplayIsRight(p: PartialTree, ops: seq<Op>)
    requires Consistent(p.store)
    ensures var end := PartialApplyAll(p, ops);
            end.Ok? ==> end.value.root == RootOf(ApplyAll(TrieUnder(p.root), ops)) && Consistent(end.value.store)
    decreases |ops|
  {
    if ops != [] {
      StepIsRight(p, ops[0]);
      var next := PartialApply(p, ops[0]);
      if next.Ok? {
        ReplayIsRight(next.value, ops[1..]);
      }
    }
  }

  /** A replay never goes wrong: with any nodes at hand, the trie under the root that it ends with holds
      under every key what the batch leaves there, and is the only well-formed one that does. */
  lemma {:induction false} ReplayLeaves(p: PartialTree, ops: seq<Op>, len: nat)
    requires Consistent(p.store) && WellFormedTree(TrieUnder(p.root), len)
    requires forall op :: op in ops ==> |op.key| == len
    ensures var end := PartialApplyAll(p, ops);
            end.Ok? ==>
              && WellFormedTree(TrieUnder(end.value.root), len)
              && Leaves(TrieUnder(p.root), ops, TrieUnder(end.value.root), len)
  {
    ReplayIsRight(p, ops);
    LeavesExactly(TrieUnder(p.root), ops, ApplyAll(TrieUnder(p.root), ops), len);
  }

  /** And it can be read: with the proofs of the touched keys at hand, looking one of them up in what the
      replay leaves finds what the batch leaves under it. */
  lemma {:induction false} ReplayCanBeRead(store: Store, pre: Tree, touched: set<Path>, ops: seq<Op>,
      len: nat, key: Path)
    requires Consistent(store) && WellFormedTree(pre, len) && Sized(touched, len) && Holding(store, pre, touched)
    requires (forall op :: op in ops ==> op.key in touched) && key in touched
    ensures var end := PartialApplyAll(PartialTree(RootOf(pre), store), ops);
            end.Ok? ==>
              && Consistent(end.value.store) && LookupTree(end.value, key).Ok?
              && LeftUnder(ops, key, GetTree(pre, key), LookupTree(end.value, key).value)
  {
    var p := PartialTree(RootOf(pre), store);
    var end := PartialApplyAll(p, ops);
    if end.Ok? {
      ReplayIsRight(p, ops);
      BatchLeaves(pre, ops, key);
      ReplayHolds(store, pre, touched, ops, len);
      var t := ApplyAll(pre, ops);
      if t.Some? {
        assert t.value in ProofTree(t, key);
        LookupWithProof(end.value.store, t.value, key);
      }
    }
  }

  lemma {:induction false} ReplayHolds(store: Store, pre: Tree, touched: set<Path>, ops: seq<Op>, len: nat)
    requires Consistent(store) && WellFormedTree(pre, len) && Sized(touched, len) && Holding(store, pre, touched)
    requires forall op :: op in ops ==> op.key in touched
    ensures var end := PartialApplyAll(PartialTree(RootOf(pre), store), ops);
            end.Ok? ==> Holding(end.value.store, ApplyAll(pre, ops), touched)
    decreases |ops|
  {
    if ops != [] {
      var op := ops[0];
      assert op in ops;
      StepRefines(store, pre, op);
      if CollapseAtHand(store, pre, op) {
        StepKeepsHolding(store, pre, op, touched);
        ApplyWellFormed(pre, op);
        ReplayHolds(store + Index(Built(pre, op)), Apply(pre, op), touched, ops[1..], len);
      }
    }
  }
}
