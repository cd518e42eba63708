/** From what the database has cached to a block that replays without the remote. */
module EndToEnd {
  import opened Options
  import opened Trie
  import opened PartialTrie
  import opened Witness
  import opened Batch
  import opened Contents
  import opened FinalProofs
  import opened Rpc
  import opened Assembly
  import opened Caches
  import opened Gathering

  function AccountKeys(r: Remote, cache: Cache): set<Path> {
    set a | a in cache :: r.hashAddress(a)
  }

  lemma {:induction false} AccountsCarried(r: Remote, cache: Cache, updates: map<Address, set<SlotKey>>,
      nodes: seq<Node>)
    requires WitnessState(r, cache, updates, nodes)
    ensures Carries(Index(nodes), Some(r.pre.accounts), AccountKeys(r, cache), Some(r.post.accounts))
  {
    forall key | key in AccountKeys(r, cache)
      ensures Holds(Index(nodes), ProofTree(Some(r.pre.accounts), key))
      ensures Holds(Index(nodes), Potential(ProofTree(Some(r.post.accounts), key), key))
    {
      var a :| a in cache && key == r.hashAddress(a);
      InWitnessOfAccount(r, cache, updates, nodes, a);
    }
  }

  /** The write that an account needs for the post-state. */
  function AccountWrite(r: Remote, a: Address): Op {
    if Exists(r, r.post, a) then Put(r.hashAddress(a), r.encodeState(r.post.info(a))) else Delete(r.hashAddress(a))
  }

  /** Writes of accounts, in any order and number, lead to the post-state's accounts if there is one for
      every account that changes. */
  lemma {:induction false} AccountWritesSuffice(r: Remote, ops: seq<Op>)
    requires Honest(r) && forall op :: op in ops ==> exists a :: op == AccountWrite(r, a)
    requires forall key: Path ::
               |key| == KEY_NIBBLES && Get(r.pre.accounts, key) != Get(r.post.accounts, key) ==>
                 !Untouched(ops, key)
    ensures Leaves(Some(r.pre.accounts), ops, Some(r.post.accounts), KEY_NIBBLES)
  {
    forall key: Path | |key| == KEY_NIBBLES
      ensures LeftUnder(ops, key, Get(r.pre.accounts, key), Get(r.post.accounts, key))
    {
      forall i: nat | LastOn(ops, i, key)
        ensures Get(r.post.accounts, key) == if ops[i].Put? then Some(ops[i].value) else None
      {
        assert ops[i] in ops;
        var a :| ops[i] == AccountWrite(r, a);
      }
    }
  }

  /** The write that a slot needs. */
  function SlotWrite(r: Remote, a: Address, k: SlotKey): Op {
    if r.post.slot(a, k) == 0 then Delete(r.hashSlot(k)) else Put(r.hashSlot(k), r.encodeWord(r.post.slot(a, k)))
  }

  lemma {:induction false} SlotWritesSuffice(r: Remote, a: Address, ops: seq<Op>)
    requires Honest(r) && forall op :: op in ops ==> exists k :: op == SlotWrite(r, a, k)
    requires forall key: Path ::
               |key| == KEY_NIBBLES && GetTree(r.pre.storage(a), key) != GetTree(r.post.storage(a), key) ==>
                 !Untouched(ops, key)
    ensures Leaves(r.pre.storage(a), ops, r.post.storage(a), KEY_NIBBLES)
  {
    var pre, post := r.pre.storage(a), r.post.storage(a);
    forall key: Path | |key| == KEY_NIBBLES ensures LeftUnder(ops, key, GetTree(pre, key), GetTree(post, key)) {
      forall i: nat | LastOn(ops, i, key)
        ensures GetTree(post, key) == if ops[i].Put? then Some(ops[i].value) else None
      {
        assert ops[i] in ops;
        var k :| ops[i] == SlotWrite(r, a, k);
        assert GetTree(post, r.hashSlot(k)) == StoredWord(r, r.post.slot(a, k));
      }
    }
  }

  /** The account updates of the block, any deletions, insertions and updates of cached accounts, replay
      on the witness alone: exactly if every collapse has its sibling at hand; if the collapses can be
      seen at the end, exactly if none runs onto an unknown branch; and then to the post-state root. */
  lemma {:induction false} AccountUpdatesReplay(r: Remote, cache: Cache, updates: map<Address, set<SlotKey>>,
      nodes: seq<Node>, ops: seq<Op>)
    requires Honest(r) && WitnessState(r, cache, updates, nodes)
    requires forall op :: op in ops ==> exists a :: a in cache && op.key == r.hashAddress(a)
    requires Leaves(Some(r.pre.accounts), ops, Some(r.post.accounts), KEY_NIBBLES)
    ensures Decided(Index(nodes), Some(r.pre.accounts), ops)
    ensures var end := PartialApplyAll(PartialTree(Some(Keccak(r.pre.accounts)), Index(nodes)), ops);
            end.Ok? ==> end.value.root == Some(Keccak(r.post.accounts))
  {
    AccountsCarried(r, cache, updates, nodes);
    LeavesExactly(Some(r.pre.accounts), ops, Some(r.post.accounts), KEY_NIBBLES);
    ReplayDecided(Index(nodes), Some(r.pre.accounts), AccountKeys(r, cache), ops, KEY_NIBBLES);
  }

  /** No final account proof hides a branch from the witness. */
  ghost predicate AccountsHideNothing(r: Remote, cache: Cache, nodes: seq<Node>) {
    forall a :: a in cache ==> !HidesBranch(Index(nodes), AccountProof(r, r.post, a), r.hashAddress(a))
  }

  /** Checked on the final proofs and the witness beforehand: if no final account proof hides a branch,
      account updates with the deletions last replay for certain. */
  lemma {:induction false} AccountUpdatesSurelyReplay(r: Remote, cache: Cache, updates: map<Address, set<SlotKey>>,
      nodes: seq<Node>, ops: seq<Op>)
    requires Honest(r) && WitnessState(r, cache, updates, nodes)
    requires forall op :: op in ops ==> exists a :: a in cache && op.key == r.hashAddress(a)
    requires Leaves(Some(r.pre.accounts), ops, Some(r.post.accounts), KEY_NIBBLES)
    requires PutsFirst(ops) && AccountsHideNothing(r, cache, nodes)
    ensures var end := PartialApplyAll(PartialTree(Some(Keccak(r.pre.accounts)), Index(nodes)), ops);
            end.Ok? && end.value.root == Some(Keccak(r.post.accounts))
  {
    AccountsCarried(r, cache, updates, nodes);
    LeavesExactly(Some(r.pre.accounts), ops, Some(r.post.accounts), KEY_NIBBLES);
    PutsFirstReplays(Index(nodes), Some(r.pre.accounts), AccountKeys(r, cache), ops, KEY_NIBBLES);
  }

  lemma {:induction false} InWitnessOfAccount(r: Remote, cache: Cache, updates: map<Address, set<SlotKey>>,
      nodes: seq<Node>, a: Address)
    requires WitnessState(r, cache, updates, nodes) && a in cache
    ensures forall n :: n in AccountProof(r, r.pre, a) ==> n in nodes
    ensures forall n :: n in Potential(AccountProof(r, r.post, a), r.hashAddress(a)) ==> n in nodes
    ensures forall k, n :: k in Wanted(cache, updates, a) && SlotCalledFor(r, a, k, n) ==> n in nodes
  {
    forall n | CalledFor(r, a, Wanted(cache, updates, a), n) ensures n in nodes {
      assert InWitness(r, cache, updates, n);
    }
    forall k, n | k in Wanted(cache, updates, a) && SlotCalledFor(r, a, k, n) ensures n in nodes {
      assert SlotsCallFor(r, a, Wanted(cache, updates, a), n);
    }
  }

  function SlotKeys(r: Remote, cache: Cache, updates: map<Address, set<SlotKey>>, a: Address): set<Path> {
    set k | k in Wanted(cache, updates, a) :: r.hashSlot(k)
  }

  lemma {:induction false} SlotsCarried(r: Remote, cache: Cache, updates: map<Address, set<SlotKey>>, nodes: seq<Node>,
      a: Address)
    requires WitnessState(r, cache, updates, nodes) && a in cache
    ensures Carries(Index(nodes), r.pre.storage(a), SlotKeys(r, cache, updates, a), r.post.storage(a))
  {
    forall key | key in SlotKeys(r, cache, updates, a)
      ensures Holds(Index(nodes), ProofTree(r.pre.storage(a), key))
      ensures Holds(Index(nodes), Potential(ProofTree(r.post.storage(a), key), key))
    {
      var k :| k in Wanted(cache, updates, a) && key == r.hashSlot(k);
      InWitnessOfAccount(r, cache, updates, nodes, a);
      assert forall n :: n in SlotProof(r, r.pre, a, k) || n in Potential(SlotProof(r, r.post, a, k), key) ==>
        SlotCalledFor(r, a, k, n);
    }
  }

  /** The same for the storage of a cached account, over the slots the witness was made for. */
  lemma {:induction false} StorageUpdatesReplay(r: Remote, cache: Cache, updates: map<Address, set<SlotKey>>,
      nodes: seq<Node>, a: Address, ops: seq<Op>)
    requires Honest(r) && WitnessState(r, cache, updates, nodes) && a in cache
    requires forall op :: op in ops ==> exists k :: k in Wanted(cache, updates, a) && op.key == r.hashSlot(k)
    requires Leaves(r.pre.storage(a), ops, r.post.storage(a), KEY_NIBBLES)
    ensures Decided(Index(nodes), r.pre.storage(a), ops)
    ensures var end := PartialApplyAll(PartialTree(RootOf(r.pre.storage(a)), Index(nodes)), ops);
            end.Ok? ==> end.value.root == RootOf(r.post.storage(a))
  {
    SlotsCarried(r, cache, updates, nodes, a);
    LeavesExactly(r.pre.storage(a), ops, r.post.storage(a), KEY_NIBBLES);
    ReplayDecided(Index(nodes), r.pre.storage(a), SlotKeys(r, cache, updates, a), ops, KEY_NIBBLES);
  }

  /** No final proof of a wanted slot hides a branch from the witness. */
  ghost predicate SlotsHideNothing(r: Remote, cache: Cache, updates: map<Address, set<SlotKey>>,
      nodes: seq<Node>, a: Address) {
    forall k :: k in Wanted(cache, updates, a) ==> !HidesBranch(Index(nodes), SlotProof(r, r.post, a, k), r.hashSlot(k))
  }

  lemma {:induction false} StorageUpdatesSurelyReplay(r: Remote, cache: Cache, updates: map<Address, set<SlotKey>>,
      nodes: seq<Node>, a: Address, ops: seq<Op>)
    requires Honest(r) && WitnessState(r, cache, updates, nodes) && a in cache
    requires forall op :: op in ops ==> exists k :: k in Wanted(cache, updates, a) && op.key == r.hashSlot(k)
    requires Leaves(r.pre.storage(a), ops, r.post.storage(a), KEY_NIBBLES)
    requires PutsFirst(ops) && SlotsHideNothing(r, cache, updates, nodes, a)
    ensures var end := PartialApplyAll(PartialTree(RootOf(r.pre.storage(a)), Index(nodes)), ops);
            end.Ok? && end.value.root == RootOf(r.post.storage(a))
  {
    SlotsCarried(r, cache, updates, nodes, a);
    LeavesExactly(r.pre.storage(a), ops, r.post.storage(a), KEY_NIBBLES);
    PutsFirstReplays(Index(nodes), r.pre.storage(a), SlotKeys(r, cache, updates, a), ops, KEY_NIBBLES);
  }

  /** The trie whose root the replay of the accounts ends with holds, for an account of the post-state, an
      encoding that commits to the root which the replay of its storage ends with. */
  lemma {:induction false} AccountCommitsToStorage(r: Remote, cache: Cache, updates: map<Address, set<SlotKey>>,
      nodes: seq<Node>, ops: seq<Op>, a: Address, slotOps: seq<Op>)
    requires Honest(r) && WitnessState(r, cache, updates, nodes) && a in cache && Exists(r, r.post, a)
    requires forall op :: op in ops ==> exists b :: b in cache && op.key == r.hashAddress(b)
    requires Leaves(Some(r.pre.accounts), ops, Some(r.post.accounts), KEY_NIBBLES)
    requires forall op :: op in slotOps ==> exists k :: k in Wanted(cache, updates, a) && op.key == r.hashSlot(k)
    requires Leaves(r.pre.storage(a), slotOps, r.post.storage(a), KEY_NIBBLES)
    ensures var accountsEnd := PartialApplyAll(PartialTree(Some(Keccak(r.pre.accounts)), Index(nodes)), ops);
            var storageEnd := PartialApplyAll(PartialTree(RootOf(r.pre.storage(a)), Index(nodes)), slotOps);
            accountsEnd.Ok? && storageEnd.Ok? ==>
              accountsEnd.value.root.Some? &&
              var trie := accountsEnd.value.root.value.preimage;
              && Get(trie, r.hashAddress(a)) == Some(r.encodeState(r.post.info(a)))
              && r.post.info(a).storageRoot == storageEnd.value.root
  {
    AccountUpdatesReplay(r, cache, updates, nodes, ops);
    StorageUpdatesReplay(r, cache, updates, nodes, a, slotOps);
  }

  /** Looking a cached account up in the witness finds the encoding of what GetAccountState has
      returned, and of nothing else. */
  lemma {:induction false} AccountReadsReplay(r: Remote, cache: Cache, updates: map<Address, set<SlotKey>>,
      nodes: seq<Node>, a: Address)
    requires Honest(r) && WitnessState(r, cache, updates, nodes) && a in cache
    ensures var found := LookupRoot(Index(nodes), Keccak(r.pre.accounts), r.hashAddress(a));
            && found == Ok(if Exists(r, r.pre, a) then Some(r.encodeState(RemoteState(r, a))) else None)
            && forall st :: found == Ok(Some(r.encodeState(st))) ==> st == RemoteState(r, a)
  {
    var proof := AccountProof(r, r.pre, a);
    InWitnessOfAccount(r, cache, updates, nodes, a);
    assert r.pre.accounts in proof;
    LookupWithProof(Index(proof), r.pre.accounts, r.hashAddress(a));
    LookupMonotone(Index(proof), Index(nodes), r.pre.accounts, r.hashAddress(a));
  }

  /** Looking up, below an existing account's storage root, any slot the witness was made for finds the
      encoding of what GetStorageValue has returned, and nothing if that is zero. */
  lemma {:induction false} SlotReadsReplay(r: Remote, cache: Cache, updates: map<Address, set<SlotKey>>,
      nodes: seq<Node>, a: Address, k: SlotKey)
    requires Honest(r) && WitnessState(r, cache, updates, nodes) && a in cache && Exists(r, r.pre, a)
    requires k in Wanted(cache, updates, a)
    ensures match RemoteState(r, a).storageRoot
            case None => RemoteSlot(r, a, k) == 0
            case Some(root) =>
              var found := LookupRoot(Index(nodes), root, r.hashSlot(k));
              && found == Ok(StoredWord(r, RemoteSlot(r, a, k)))
              && forall w: Word :: found == Ok(Some(r.encodeWord(w))) ==> w == RemoteSlot(r, a, k)
  {
    assert GetTree(r.pre.storage(a), r.hashSlot(k)) == StoredWord(r, r.pre.slot(a, k));
    if r.pre.storage(a).Some? {
      var proof := SlotProof(r, r.pre, a, k);
      var top := r.pre.storage(a).value;
      InWitnessOfAccount(r, cache, updates, nodes, a);
      assert forall n :: n in proof ==> SlotCalledFor(r, a, k, n);
      assert top in proof;
      LookupWithProof(Index(proof), top, r.hashSlot(k));
      LookupMonotone(Index(proof), Index(nodes), top, r.hashSlot(k));
    }
  }
}
