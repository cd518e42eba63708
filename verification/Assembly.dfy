/** Putting the nodes of a witness together from the accounts fetched before and after the block.
    An index lists the addresses and, for each, the slots asked for. */
module Assembly {
  import opened Trie
  import opened Witness
  import opened Rpc

  type Requests = seq<(Address, seq<SlotKey>)>
  type Accounts = map<Address, Account>

  predicate Answered(accounts: Accounts, index: Requests) {
    forall i :: 0 <= i < |index| ==>
      index[i].0 in accounts && forall k :: k in index[i].1 ==> k in accounts[index[i].0].storageProofs
  }

  // ------------------------------------------------- proofs that share their first node

  function Tails(proofs: seq<seq<Node>>): seq<Node> {
    if proofs == [] then []
    else
      var last := proofs[|proofs| - 1];
      Tails(proofs[..|proofs| - 1]) + if last == [] then [] else last[1..]
  }

  function FirstRoot(proofs: seq<seq<Node>>): seq<Node> {
    if proofs == [] || proofs[0] == [] then [] else [proofs[0][0]]
  }

  /** One copy of the root, and every proof without its first node. */
  function Deduped(proofs: seq<seq<Node>>): seq<Node> {
    FirstRoot(proofs) + Tails(proofs)
  }

  /** The proofs come from one trie: all are empty, or all start at the same node. */
  ghost predicate OneTrie(proofs: seq<seq<Node>>) {
    forall p, q :: p in proofs && q in proofs ==> FirstRoot([p]) == FirstRoot([q])
  }

  lemma {:induction false} InTails(proofs: seq<seq<Node>>, n: Node)
    ensures n in Tails(proofs) <==> exists p :: p in proofs && p != [] && n in p[1..]
  {
    if proofs != [] {
      var init, last := proofs[..|proofs| - 1], proofs[|proofs| - 1];
      InTails(init, n);
      assert proofs == init + [last];
    }
  }

  /** Skipping the first node of every proof but one loses nothing. */
  lemma {:induction false} DedupedKeepsAll(proofs: seq<seq<Node>>, n: Node)
    requires OneTrie(proofs)
    ensures n in Deduped(proofs) <==> exists p :: p in proofs && n in p
  {
    InTails(proofs, n);
    if n in Deduped(proofs) {
      if n in FirstRoot(proofs) {
        assert proofs[0] in proofs && n in proofs[0];
      } else {
        var p :| p in proofs && p != [] && n in p[1..];
        assert n in p;
      }
    }
    if p :| p in proofs && n in p {
      assert p == [p[0]] + p[1..];
      if n == p[0] {
        assert proofs[0] in proofs;
        assert FirstRoot([p]) == FirstRoot([proofs[0]]);
        assert FirstRoot(proofs) == FirstRoot([proofs[0]]) == [n];
      }
    }
  }

  // ----------------------------------------------------------------- the witness's parts

  function Flat(lists: seq<seq<Node>>): seq<Node> {
    if lists == [] then [] else Flat(lists[..|lists| - 1]) + lists[|lists| - 1]
  }

  lemma {:induction false} InFlat(lists: seq<seq<Node>>, n: Node)
    ensures n in Flat(lists) <==> exists l :: l in lists && n in l
  {
    if lists != [] {
      var init, last := lists[..|lists| - 1], lists[|lists| - 1];
      InFlat(init, n);
      assert lists == init + [last];
    }
  }

  lemma {:induction false} FlatStep(lists: seq<seq<Node>>, i: nat)
    requires i < |lists|
    ensures Flat(lists[..i + 1]) == Flat(lists[..i]) + lists[i]
  {
    assert lists[..i + 1][..i] == lists[..i];
  }

  function AccountProofs(accounts: Accounts, index: Requests): seq<seq<Node>>
    requires Answered(accounts, index)
  {
    seq(|index|, i requires 0 <= i < |index| => accounts[index[i].0].accountProof)
  }

  function SlotProofs(account: Account, keys: seq<SlotKey>): seq<seq<Node>>
    requires forall k :: k in keys ==> k in account.storageProofs
  {
    seq(|keys|, i requires 0 <= i < |keys| => account.storageProofs[keys[i]])
  }

  function AccountPotentials(accounts: Accounts, index: Requests, hashAddress: Address -> Path): seq<seq<Node>>
    requires Answered(accounts, index)
  {
    seq(|index|, i requires 0 <= i < |index| => Potential(accounts[index[i].0].accountProof, hashAddress(index[i].0)))
  }

  function SlotPotentials(account: Account, keys: seq<SlotKey>, hashSlot: SlotKey -> Path): seq<seq<Node>>
    requires forall k :: k in keys ==> k in account.storageProofs
  {
    seq(|keys|, i requires 0 <= i < |keys| => Potential(account.storageProofs[keys[i]], hashSlot(keys[i])))
  }

  function StoragePotentials(accounts: Accounts, index: Requests, hashSlot: SlotKey -> Path): seq<seq<Node>>
    requires Answered(accounts, index)
  {
    seq(|index|, i requires 0 <= i < |index| => Flat(SlotPotentials(accounts[index[i].0], index[i].1, hashSlot)))
  }

  function StorageNodes(accounts: Accounts, index: Requests): seq<seq<Node>>
    requires Answered(accounts, index)
  {
    seq(|index|, i requires 0 <= i < |index| => Deduped(SlotProofs(accounts[index[i].0], index[i].1)))
  }

  method CollectAccountPotentials(accounts: Accounts, index: Requests, hashAddress: Address -> Path)
    returns (nodes: seq<Node>)
    requires Answered(accounts, index)
    ensures nodes == Flat(AccountPotentials(accounts, index, hashAddress))
  {
    nodes := [];
    ghost var lists := AccountPotentials(accounts, index, hashAddress);
    for i := 0 to |index|
      invariant nodes == Flat(lists[..i])
    {
      var a := index[i].0;
      var variants := GetPotentialChildNodes(accounts[a].accountProof, hashAddress(a));
      if variants.Some? {
        nodes := nodes + variants.value;
      }
      FlatStep(lists, i);
    }
    assert lists[..|index|] == lists;
  }

  method CollectSlotPotentials(account: Account, keys: seq<SlotKey>, hashSlot: SlotKey -> Path)
    returns (nodes: seq<Node>)
    requires forall k :: k in keys ==> k in account.storageProofs
    ensures nodes == Flat(SlotPotentials(account, keys, hashSlot))
  {
    nodes := [];
    ghost var lists := SlotPotentials(account, keys, hashSlot);
    for i := 0 to |keys|
      invariant nodes == Flat(lists[..i])
    {
      var variants := GetPotentialChildNodes(account.storageProofs[keys[i]], hashSlot(keys[i]));
      if variants.Some? {
        nodes := nodes + variants.value;
      }
      FlatStep(lists, i);
    }
    assert lists[..|keys|] == lists;
  }

  method CollectStoragePotentials(accounts: Accounts, index: Requests, hashSlot: SlotKey -> Path)
    returns (nodes: seq<Node>)
    requires Answered(accounts, index)
    ensures nodes == Flat(StoragePotentials(accounts, index, hashSlot))
  {
    nodes := [];
    ghost var lists := StoragePotentials(accounts, index, hashSlot);
    for i := 0 to |index|
      invariant nodes == Flat(lists[..i])
    {
      var more := CollectSlotPotentials(accounts[index[i].0], index[i].1, hashSlot);
      nodes := nodes + more;
      FlatStep(lists, i);
    }
    assert lists[..|index|] == lists;
  }

  method CollectTails(proofs: seq<seq<Node>>) returns (nodes: seq<Node>)
    ensures nodes == Tails(proofs)
  {
    nodes := [];
    for i := 0 to |proofs|
      invariant nodes == Tails(proofs[..i])
    {
      if proofs[i] != [] {
        nodes := nodes + proofs[i][1..];
      }
      assert proofs[..i + 1][..i] == proofs[..i];
    }
    assert proofs[..|proofs|] == proofs;
  }

  method CollectStorageNodes(accounts: Accounts, index: Requests) returns (nodes: seq<Node>)
    requires Answered(accounts, index)
    ensures nodes == Flat(StorageNodes(accounts, index))
  {
    nodes := [];
    ghost var lists := StorageNodes(accounts, index);
    for i := 0 to |index|
      invariant nodes == Flat(lists[..i])
    {
      var proofs := SlotProofs(accounts[index[i].0], index[i].1);
      var before := nodes;
      if |proofs| > 0 && |proofs[0]| > 0 {
        nodes := nodes + [proofs[0][0]];
      }
      var tails := CollectTails(proofs);
      nodes := nodes + tails;
      assert nodes == before + Deduped(proofs);
      FlatStep(lists, i);
    }
    assert lists[..|index|] == lists;
  }

  /** All nodes of a witness, in the order of the index. */
  function AllNodes(initial: Accounts, final: Accounts, index: Requests, hashAddress: Address -> Path,
      hashSlot: SlotKey -> Path): seq<Node>
    requires Answered(initial, index) && Answered(final, index)
  {
    Deduped(AccountProofs(initial, index)) + Flat(AccountPotentials(final, index, hashAddress)) +
    Flat(StorageNodes(initial, index)) + Flat(StoragePotentials(final, index, hashSlot))
  }

  method Assemble(initial: Accounts, final: Accounts, index: Requests, hashAddress: Address -> Path,
      hashSlot: SlotKey -> Path)
    returns (nodes: seq<Node>)
    requires Answered(initial, index) && Answered(final, index)
    ensures nodes == AllNodes(initial, final, index, hashAddress, hashSlot)
  {
    var accountProofs := AccountProofs(initial, index);
    var accountTails := CollectTails(accountProofs);
    var accountPotentials := CollectAccountPotentials(final, index, hashAddress);
    var storageNodes := CollectStorageNodes(initial, index);
    var storagePotentials := CollectStoragePotentials(final, index, hashSlot);
    nodes := FirstRoot(accountProofs) + accountTails + accountPotentials + storageNodes + storagePotentials;
  }

  // ------------------------------------------------------------------- what is in there

  ghost predicate SlotCalledFor(r: Remote, a: Address, k: SlotKey, n: Node) {
    n in SlotProof(r, r.pre, a, k) || n in Potential(SlotProof(r, r.post, a, k), r.hashSlot(k))
  }

  /** The nodes an account calls for: its own initial proof and those of the given slots, and the
      potential child nodes of the final proofs. */
  ghost predicate CalledFor(r: Remote, a: Address, slots: set<SlotKey>, n: Node) {
    || n in AccountProof(r, r.pre, a)
    || n in Potential(AccountProof(r, r.post, a), r.hashAddress(a))
    || SlotsCallFor(r, a, slots, n)
  }

  ghost predicate SlotsCallFor(r: Remote, a: Address, slots: set<SlotKey>, n: Node) {
    exists k :: k in slots && SlotCalledFor(r, a, k, n)
  }

  function SlotSet(keys: seq<SlotKey>): set<SlotKey> {
    set k | k in keys
  }

  /** The accounts are the remote's answers for the index. */
  ghost predicate AnswersFrom(r: Remote, s: ChainState, accounts: Accounts, index: Requests) {
    && Answered(accounts, index)
    && (forall i :: 0 <= i < |index| ==> Fits(r, s, index[i].0, accounts[index[i].0]))
  }

  lemma {:induction false} FittingProofs(r: Remote, s: ChainState, a: Address, account: Account)
    requires Fits(r, s, a, account)
    ensures account.accountProof == AccountProof(r, s, a)
    ensures forall k :: k in account.storageProofs ==> account.storageProofs[k] == SlotProof(r, s, a, k)
  {
  }

  /** Membership in one of several lists, list i having to do with item i. */
  lemma {:induction false} InSomeList<A>(items: seq<A>, lists: seq<seq<Node>>, n: Node, has: A -> bool)
    requires |items| == |lists|
    requires forall i :: 0 <= i < |items| ==> (n in lists[i] <==> has(items[i]))
    ensures (exists l :: l in lists && n in l) <==> exists x :: x in items && has(x)
  {
    if l :| l in lists && n in l {
      var i :| 0 <= i < |lists| && lists[i] == l;
      assert items[i] in items && has(items[i]);
    }
    if x :| x in items && has(x) {
      var i :| 0 <= i < |items| && items[i] == x;
      assert lists[i] in lists;
    }
  }

  lemma {:induction false} InAccountProofs(r: Remote, initial: Accounts, index: Requests, n: Node)
    requires AnswersFrom(r, r.pre, initial, index)
    ensures n in Deduped(AccountProofs(initial, index)) <==> exists e :: e in index && n in AccountProof(r, r.pre, e.0)
  {
    var proofs := AccountProofs(initial, index);
    forall i | 0 <= i < |index| ensures proofs[i] == AccountProof(r, r.pre, index[i].0) {
      FittingProofs(r, r.pre, index[i].0, initial[index[i].0]);
    }
    assert OneTrie(proofs) by {
      forall p | p in proofs ensures FirstRoot([p]) == [r.pre.accounts] {
      }
    }
    DedupedKeepsAll(proofs, n);
    InSomeList(index, proofs, n, (e: (Address, seq<SlotKey>)) => n in AccountProof(r, r.pre, e.0));
  }

  lemma {:induction false} InAccountPotentials(r: Remote, final: Accounts, index: Requests, n: Node)
    requires AnswersFrom(r, r.post, final, index)
    ensures n in Flat(AccountPotentials(final, index, r.hashAddress)) <==>
            exists e :: e in index && n in Potential(AccountProof(r, r.post, e.0), r.hashAddress(e.0))
  {
    var lists := AccountPotentials(final, index, r.hashAddress);
    forall i | 0 <= i < |index|
      ensures lists[i] == Potential(AccountProof(r, r.post, index[i].0), r.hashAddress(index[i].0))
    {
      FittingProofs(r, r.post, index[i].0, final[index[i].0]);
    }
    InFlat(lists, n);
    InSomeList(index, lists, n,
               (e: (Address, seq<SlotKey>)) => n in Potential(AccountProof(r, r.post, e.0), r.hashAddress(e.0)));
  }

  lemma {:induction false} InSlotProofs(r: Remote, a: Address, account: Account, keys: seq<SlotKey>, n: Node)
    requires Fits(r, r.pre, a, account) && forall k :: k in keys ==> k in account.storageProofs
    ensures n in Deduped(SlotProofs(account, keys)) <==> exists k :: k in keys && n in SlotProof(r, r.pre, a, k)
  {
    var proofs := SlotProofs(account, keys);
    FittingProofs(r, r.pre, a, account);
    assert forall i :: 0 <= i < |keys| ==> proofs[i] == SlotProof(r, r.pre, a, keys[i]);
    assert OneTrie(proofs) by {
      var t := r.pre.storage(a);
      forall p | p in proofs ensures FirstRoot([p]) == if t.None? then [] else [t.value] {
      }
    }
    DedupedKeepsAll(proofs, n);
    InSomeList(keys, proofs, n, k => n in SlotProof(r, r.pre, a, k));
  }

  lemma {:induction false} InSlotPotentials(r: Remote, a: Address, account: Account, keys: seq<SlotKey>, n: Node)
    requires Fits(r, r.post, a, account) && forall k :: k in keys ==> k in account.storageProofs
    ensures n in Flat(SlotPotentials(account, keys, r.hashSlot)) <==>
            exists k :: k in keys && n in Potential(SlotProof(r, r.post, a, k), r.hashSlot(k))
  {
    var lists := SlotPotentials(account, keys, r.hashSlot);
    forall i | 0 <= i < |keys| ensures lists[i] == Potential(SlotProof(r, r.post, a, keys[i]), r.hashSlot(keys[i])) {
      FittingProofs(r, r.post, a, account);
    }
    InFlat(lists, n);
    InSomeList(keys, lists, n, k => n in Potential(SlotProof(r, r.post, a, k), r.hashSlot(k)));
  }

  lemma {:induction false} InStorage(r: Remote, initial: Accounts, final: Accounts, index: Requests, n: Node)
    requires AnswersFrom(r, r.pre, initial, index) && AnswersFrom(r, r.post, final, index)
    ensures n in Flat(StorageNodes(initial, index)) || n in Flat(StoragePotentials(final, index, r.hashSlot)) <==>
            exists e :: e in index && SlotsCallFor(r, e.0, SlotSet(e.1), n)
  {
    var nodes, potentials := StorageNodes(initial, index), StoragePotentials(final, index, r.hashSlot);
    forall i | 0 <= i < |index|
      ensures n in nodes[i] || n in potentials[i] <==> SlotsCallFor(r, index[i].0, SlotSet(index[i].1), n)
    {
      EntryStorage(r, initial[index[i].0], final[index[i].0], index[i], n);
    }
    InEither(nodes, potentials, index, n, (e: (Address, seq<SlotKey>)) => SlotsCallFor(r, e.0, SlotSet(e.1), n));
  }

  lemma {:induction false} EntryStorage(r: Remote, initial: Account, final: Account,
      entry: (Address, seq<SlotKey>), n: Node)
    requires Fits(r, r.pre, entry.0, initial) && Fits(r, r.post, entry.0, final)
    requires forall k :: k in entry.1 ==> k in initial.storageProofs && k in final.storageProofs
    ensures n in Deduped(SlotProofs(initial, entry.1)) || n in Flat(SlotPotentials(final, entry.1, r.hashSlot)) <==>
            SlotsCallFor(r, entry.0, SlotSet(entry.1), n)
  {
    InSlotProofs(r, entry.0, initial, entry.1, n);
    InSlotPotentials(r, entry.0, final, entry.1, n);
    if k :| k in entry.1 && n in SlotProof(r, r.pre, entry.0, k) {
      assert SlotCalledFor(r, entry.0, k, n);
    }
    if k :| k in entry.1 && n in Potential(SlotProof(r, r.post, entry.0, k), r.hashSlot(k)) {
      assert SlotCalledFor(r, entry.0, k, n);
    }
  }

  lemma {:induction false} InEither<A>(xs: seq<seq<Node>>, ys: seq<seq<Node>>, items: seq<A>, n: Node, has: A -> bool)
    requires |xs| == |ys| == |items|
    requires forall i :: 0 <= i < |items| ==> (n in xs[i] || n in ys[i] <==> has(items[i]))
    ensures n in Flat(xs) || n in Flat(ys) <==> exists x :: x in items && has(x)
  {
    InFlat(xs, n);
    InFlat(ys, n);
    if l :| l in xs && n in l {
      var i :| 0 <= i < |xs| && xs[i] == l;
      assert items[i] in items && has(items[i]);
    }
    if l :| l in ys && n in l {
      var i :| 0 <= i < |ys| && ys[i] == l;
      assert items[i] in items && has(items[i]);
    }
    if x :| x in items && has(x) {
      var i :| 0 <= i < |items| && items[i] == x;
      assert xs[i] in xs && ys[i] in ys;
    }
  }

  /** The assembled witness holds exactly the nodes the index calls for. */
  lemma {:induction false} AssembledExactly(r: Remote, initial: Accounts, final: Accounts, index: Requests, n: Node)
    requires AnswersFrom(r, r.pre, initial, index) && AnswersFrom(r, r.post, final, index)
    ensures n in AllNodes(initial, final, index, r.hashAddress, r.hashSlot) <==>
            exists e :: e in index && CalledFor(r, e.0, SlotSet(e.1), n)
  {
    InAccountProofs(r, initial, index, n);
    InAccountPotentials(r, final, index, n);
    InStorage(r, initial, final, index, n);
  }
}
