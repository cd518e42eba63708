/** Accounts as eth_getProof serves them, and the remote node that serves them: two fixed states,
    the one before the block and the one after it. */
module Rpc {
  import opened Options
  import opened Trie
  import opened PartialTrie

  type Address = nat
  type SlotKey = nat
  type Word = nat
  type Bytes = seq<byte>

  const KEY_NIBBLES: nat := 64

  /** Code is named by its hash; the hash is a free constructor, hence injective. */
  datatype CodeHash = KeccakCode(code: Bytes)

  function EmptyCodeHash(): CodeHash { KeccakCode([]) }

  datatype AccountState = AccountState(nonce: nat, balance: Word, storageRoot: Option<Digest>, codeHash: CodeHash)

  function DefaultState(): AccountState { AccountState(0, 0, None, EmptyCodeHash()) }

  datatype Account =
    | Existing(state: AccountState, storage: map<SlotKey, Word>, accountProof: seq<Node>,
               storageProofs: map<SlotKey, seq<Node>>, code: Option<Bytes>)
    | NonExisting(accountProof: seq<Node>, storageProofs: map<SlotKey, seq<Node>>)

  /** One state of the chain, as the remote answers about it. */
  datatype ChainState = ChainState(
    accounts: Node,
    storage: Address -> Tree,
    info: Address -> AccountState,
    slot: (Address, SlotKey) -> Word,
    code: Address -> Bytes)

  /** The remote node, with the hashes that turn addresses and slots into trie keys and the encodings
      that turn accounts and words into trie values. */
  datatype Remote = Remote(
    pre: ChainState,
    post: ChainState,
    hashAddress: Address -> Path,
    hashSlot: SlotKey -> Path,
    encodeState: AccountState -> Value,
    encodeWord: Word -> Value,
    blockHash: nat -> nat)

  /** The remote serves well-formed tries under keys of one length, names code and storage by their
      hashes, keeps no storage for an account it does not have, and what it says about accounts and
      slots is what its tries hold. */
  ghost predicate Honest(r: Remote) {
    && (forall a :: |r.hashAddress(a)| == KEY_NIBBLES)
    && (forall k :: |r.hashSlot(k)| == KEY_NIBBLES)
    && HonestState(r, r.pre) && HonestState(r, r.post)
    && EncodesApart(r) && Truthful(r, r.pre) && Truthful(r, r.post)
  }

  ghost predicate HonestState(r: Remote, s: ChainState) {
    && WellFormed(s.accounts, KEY_NIBBLES)
    && (forall a :: WellFormedTree(s.storage(a), KEY_NIBBLES))
    && (forall a :: s.info(a).codeHash == KeccakCode(s.code(a)))
    && (forall a :: Exists(r, s, a) ==> s.info(a).storageRoot == RootOf(s.storage(a)))
    && (forall a :: !Exists(r, s, a) ==> s.storage(a) == None)
  }

  /** Encodings are injective. */
  ghost predicate EncodesApart(r: Remote) {
    && (forall p, q :: r.encodeState(p) == r.encodeState(q) ==> p == q)
    && (forall v, w :: r.encodeWord(v) == r.encodeWord(w) ==> v == w)
  }

  /** The account trie holds the encoded accounts, and a storage trie the encoded words other than
      zero. */
  ghost predicate Truthful(r: Remote, s: ChainState) {
    && (forall a :: Get(s.accounts, r.hashAddress(a)).Some? ==>
        Get(s.accounts, r.hashAddress(a)) == Some(r.encodeState(s.info(a))))
    && (forall a, k :: GetTree(s.storage(a), r.hashSlot(k)) == StoredWord(r, s.slot(a, k)))
  }

  function StoredWord(r: Remote, w: Word): Option<Value> {
    if w == 0 then None else Some(r.encodeWord(w))
  }

  predicate Exists(r: Remote, s: ChainState, a: Address) {
    Get(s.accounts, r.hashAddress(a)).Some?
  }

  function AccountProof(r: Remote, s: ChainState, a: Address): seq<Node> {
    Proof(s.accounts, r.hashAddress(a))
  }

  function SlotProof(r: Remote, s: ChainState, a: Address, k: SlotKey): seq<Node> {
    ProofTree(s.storage(a), r.hashSlot(k))
  }

  /** What is to be known about an account once the given slots of it have been asked for. */
  function View(r: Remote, s: ChainState, a: Address, keys: set<SlotKey>): (account: Account)
    ensures account.storageProofs.Keys == keys
    ensures account.Existing? <==> Exists(r, s, a)
    ensures account.Existing? ==> account.storage.Keys == keys
  {
    var proofs := map k | k in keys :: SlotProof(r, s, a, k);
    if Exists(r, s, a) then
      Existing(s.info(a), map k | k in keys :: s.slot(a, k), AccountProof(r, s, a), proofs,
               if s.info(a).codeHash == EmptyCodeHash() then None else Some(s.code(a)))
    else NonExisting(AccountProof(r, s, a), proofs)
  }

  /** An account as the remote would answer for the slots it knows. */
  ghost predicate Fits(r: Remote, s: ChainState, a: Address, account: Account) {
    account == View(r, s, a, account.storageProofs.Keys)
  }

  // ----------------------------------------------------------- deciding existence from a proof

  datatype Outcome<+T> = Success(value: T) | Failure

  /** Whether a proof shows its key to be present; it fails on a proof that is empty or that does
      not lead anywhere. */
  function ProvesPresence(proof: seq<Node>, key: Path): Outcome<bool> {
    if proof == [] then Failure
    else
      match LookupRoot(Index(proof), Keccak(proof[0]), key)
      case Missing(_) => Failure
      case Ok(value) => Success(value.Some?)
  }

  /** On a proof taken from a trie the decision is the trie's own. */
  lemma {:induction false} PresenceIsExact(n: Node, key: Path)
    ensures ProvesPresence(Proof(n, key), key) == Success(Get(n, key).Some?)
  {
    LookupWithProof(Index(Proof(n, key)), n, key);
  }

  /** A decision reached is never changed by more nodes. */
  lemma {:induction false} LookupMonotone(small: Store, large: Store, n: Node, key: Path)
    requires Consistent(small) && Consistent(large) && (forall d :: d in small ==> d in large)
    ensures Lookup(small, n, key).Ok? ==> Lookup(large, n, key) == Lookup(small, n, key)
    decreases n
  {
    if n.Extension? && n.path <= key && n.child in small {
      assert small[n.child] == n.child.preimage == large[n.child];
      LookupMonotone(small, large, n.child.preimage, key[|n.path|..]);
    } else if n.Branch? && key != [] && Slot(n.children, key[0]).Some? && n.children[key[0]].value in small {
      var d := n.children[key[0]].value;
      assert small[d] == d.preimage == large[d];
      LookupMonotone(small, large, d.preimage, key[1..]);
    }
  }

  // ------------------------------------------------------------------------------- merging

  /** Two answers about one account that agree on whether it exists. */
  function Merge(cached: Account, fetched: Account): Account
    requires cached.Existing? == fetched.Existing?
  {
    match cached
    case Existing(state, storage, proof, proofs, code) =>
      Existing(state, storage + fetched.storage, proof, proofs + fetched.storageProofs, code)
    case NonExisting(proof, proofs) => NonExisting(proof, proofs + fetched.storageProofs)
  }

  /** Merging answers about the same state is the answer about both requests. */
  lemma {:induction false} MergeViews(r: Remote, s: ChainState, a: Address, cached: Account, fetched: Account)
    requires Fits(r, s, a, cached) && Fits(r, s, a, fetched)
    ensures cached.Existing? == fetched.Existing?
    ensures Merge(cached, fetched) == View(r, s, a, cached.storageProofs.Keys + fetched.storageProofs.Keys)
  {
  }
}
