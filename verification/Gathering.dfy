/** What to ask the remote for, and what goes into an execution witness beside its nodes. */
module Gathering {
  import opened Options
  import opened Trie
  import opened Rpc
  import opened Assembly
  import opened Caches

  datatype Tx = Tx(sender: Option<Address>, to: Option<Address>, accessList: Requests)

  datatype WitnessKey = AddressKey(address: Address) | StorageKey(slot: SlotKey)

  /** Headers are given by their block numbers. */
  datatype ExecutionWitness = ExecutionWitness(state: seq<Node>, keys: seq<WitnessKey>, codes: seq<Bytes>,
    headers: seq<nat>)

  // ------------------------------------------------------------------------- requests

  function Addresses(index: Requests): set<Address> {
    set e | e in index :: e.0
  }

  function SlotsNamed(index: Requests, a: Address): set<SlotKey> {
    set e, k | e in index && e.0 == a && k in e.1 :: k
  }

  predicate Distinct(index: Requests) {
    forall i, j :: 0 <= i < j < |index| ==> index[i].0 != index[j].0
  }

  function Wanted(cache: Cache, updates: map<Address, set<SlotKey>>, a: Address): set<SlotKey> {
    if a in cache && cache[a].Existing? then cache[a].storage.Keys
    else if a in updates then updates[a]
    else {}
  }

  ghost predicate IndexOf(cache: Cache, updates: map<Address, set<SlotKey>>, index: Requests) {
    && Distinct(index)
    && Addresses(index) == cache.Keys
    && (forall e :: e in index ==> SlotSet(e.1) == Wanted(cache, updates, e.0))
  }

  lemma {:induction false} AddressesAppend(index: Requests, entry: (Address, seq<SlotKey>))
    ensures Addresses(index + [entry]) == Addresses(index) + {entry.0}
    ensures Distinct(index) && entry.0 !in Addresses(index) ==> Distinct(index + [entry])
  {
    assert forall i :: 0 <= i < |index| ==> index[i] in index;
  }

  /** The addresses and slots that transactions name: senders, recipients, access lists. */
  function NamedBy(txs: seq<Tx>): Requests {
    Senders(txs) + Recipients(txs) + AccessLists(txs)
  }

  function Senders(txs: seq<Tx>): Requests {
    if txs == [] then []
    else (if txs[0].sender.Some? then [(txs[0].sender.value, [])] else []) + Senders(txs[1..])
  }

  function Recipients(txs: seq<Tx>): Requests {
    if txs == [] then []
    else (if txs[0].to.Some? then [(txs[0].to.value, [])] else []) + Recipients(txs[1..])
  }

  function AccessLists(txs: seq<Tx>): Requests {
    if txs == [] then [] else txs[0].accessList + AccessLists(txs[1..])
  }

  /** A transaction names its sender, its recipient and the addresses of its access list, */
  predicate NamesAddress(tx: Tx, a: Address) {
    tx.sender == Some(a) || tx.to == Some(a) || exists i :: 0 <= i < |tx.accessList| && tx.accessList[i].0 == a
  }

  /** and the slots that the access list gives for an address. */
  predicate NamesSlot(tx: Tx, a: Address, k: SlotKey) {
    exists i :: 0 <= i < |tx.accessList| && tx.accessList[i].0 == a && k in tx.accessList[i].1
  }

  lemma {:induction false} NamedAppend(index: Requests, more: Requests, a: Address)
    ensures Addresses(index + more) == Addresses(index) + Addresses(more)
    ensures SlotsNamed(index + more, a) == SlotsNamed(index, a) + SlotsNamed(more, a)
  {
    assert forall e :: e in index + more <==> e in index || e in more;
  }

  lemma {:induction false} SendersNamed(txs: seq<Tx>, a: Address)
    ensures a in Addresses(Senders(txs)) <==> exists tx :: tx in txs && tx.sender == Some(a)
    ensures SlotsNamed(Senders(txs), a) == {}
  {
    if txs != [] {
      SendersNamed(txs[1..], a);
      NamedAppend(if txs[0].sender.Some? then [(txs[0].sender.value, [])] else [], Senders(txs[1..]), a);
      assert txs == [txs[0]] + txs[1..];
    }
  }

  lemma {:induction false} RecipientsNamed(txs: seq<Tx>, a: Address)
    ensures a in Addresses(Recipients(txs)) <==> exists tx :: tx in txs && tx.to == Some(a)
    ensures SlotsNamed(Recipients(txs), a) == {}
  {
    if txs != [] {
      RecipientsNamed(txs[1..], a);
      NamedAppend(if txs[0].to.Some? then [(txs[0].to.value, [])] else [], Recipients(txs[1..]), a);
      assert txs == [txs[0]] + txs[1..];
    }
  }

  lemma {:induction false} ListedNamed(txs: seq<Tx>, a: Address, k: SlotKey)
    ensures a in Addresses(AccessLists(txs)) <==> exists tx :: tx in txs && a in Addresses(tx.accessList)
    ensures k in SlotsNamed(AccessLists(txs), a) <==> exists tx :: tx in txs && k in SlotsNamed(tx.accessList, a)
  {
    if txs != [] {
      ListedNamed(txs[1..], a, k);
      NamedAppend(txs[0].accessList, AccessLists(txs[1..]), a);
      assert txs == [txs[0]] + txs[1..];
    }
  }

  lemma {:induction false} InOneList(tx: Tx, a: Address, k: SlotKey)
    ensures NamesAddress(tx, a) <==> tx.sender == Some(a) || tx.to == Some(a) || a in Addresses(tx.accessList)
    ensures NamesSlot(tx, a, k) <==> k in SlotsNamed(tx.accessList, a)
  {
  }

  lemma {:induction false} NamedOne(txs: seq<Tx>, a: Address, k: SlotKey)
    ensures a in Addresses(NamedBy(txs)) <==> exists tx :: tx in txs && NamesAddress(tx, a)
    ensures k in SlotsNamed(NamedBy(txs), a) <==> exists tx :: tx in txs && NamesSlot(tx, a, k)
  {
    SendersNamed(txs, a);
    RecipientsNamed(txs, a);
    ListedNamed(txs, a, k);
    NamedAppend(Senders(txs), Recipients(txs), a);
    NamedAppend(Senders(txs) + Recipients(txs), AccessLists(txs), a);
    forall tx | tx in txs
      ensures NamesAddress(tx, a) <==> tx.sender == Some(a) || tx.to == Some(a) || a in Addresses(tx.accessList)
      ensures NamesSlot(tx, a, k) <==> k in SlotsNamed(tx.accessList, a)
    {
      InOneList(tx, a, k);
    }
  }

  /** The requests name every address and slot that some transaction names, and no others. */
  lemma {:induction false} NamedExactly(txs: seq<Tx>)
    ensures forall a :: a in Addresses(NamedBy(txs)) <==> exists tx :: tx in txs && NamesAddress(tx, a)
    ensures forall a, k :: k in SlotsNamed(NamedBy(txs), a) <==> exists tx :: tx in txs && NamesSlot(tx, a, k)
  {
    forall a ensures a in Addresses(NamedBy(txs)) <==> exists tx :: tx in txs && NamesAddress(tx, a) {
      NamedOne(txs, a, 0);
    }
    forall a, k ensures k in SlotsNamed(NamedBy(txs), a) <==> exists tx :: tx in txs && NamesSlot(tx, a, k) {
      NamedOne(txs, a, k);
    }
  }

  method Enumerate(s: set<SlotKey>) returns (keys: seq<SlotKey>)
    ensures SlotSet(keys) == s
  {
    keys := [];
    var pending := s;
    while pending != {}
      invariant pending <= s && SlotSet(keys) == s - pending
      decreases pending
    {
      var k :| k in pending;
      assert SlotSet(keys + [k]) == SlotSet(keys) + {k} == s - (pending - {k});
      keys := keys + [k];
      pending := pending - {k};
    }
  }

  /** One request for each address, with all the slots named for it. */
  method Dedup(named: Requests) returns (index: Requests)
    ensures Distinct(index)
    ensures Addresses(index) == Addresses(named)
    ensures forall e :: e in index ==> SlotSet(e.1) == SlotsNamed(named, e.0)
  {
    var accounts: map<Address, seq<SlotKey>> := map[];
    for i := 0 to |named|
      invariant accounts.Keys == Addresses(named[..i])
      invariant forall a :: a in accounts ==> SlotSet(accounts[a]) == SlotsNamed(named[..i], a)
    {
      var a := named[i].0;
      var known := if a in accounts then accounts[a] else [];
      SlotsNamedAppend(named[..i], named[i]);
      AddressesAppend(named[..i], named[i]);
      assert named[..i + 1] == named[..i] + [named[i]];
      accounts := accounts[a := known + named[i].1];
    }
    assert named[..|named|] == named;
    index := [];
    var pending := accounts.Keys;
    while pending != {}
      invariant pending <= accounts.Keys && Distinct(index)
      invariant Addresses(index) == accounts.Keys - pending
      invariant forall e :: e in index ==> SlotSet(e.1) == SlotsNamed(named, e.0)
      decreases pending
    {
      var a :| a in pending;
      AddressesAppend(index, (a, accounts[a]));
      index := index + [(a, accounts[a])];
      pending := pending - {a};
    }
  }

  lemma {:induction false} SlotsNamedAppend(index: Requests, entry: (Address, seq<SlotKey>))
    ensures forall a :: SlotsNamed(index + [entry], a) ==
              SlotsNamed(index, a) + if a == entry.0 then SlotSet(entry.1) else {}
    ensures forall a :: a !in Addresses(index) ==> SlotsNamed(index, a) == {}
  {
  }

  /** An answer is the answer to the last request for its address. */
  lemma {:induction false} AnswerAt(r: Remote, s: ChainState, index: Requests, i: nat)
    requires i < |index| && forall j :: i < j < |index| ==> index[j].0 != index[i].0
    ensures index[i].0 in Answers(r, s, index)
    ensures Answers(r, s, index)[index[i].0] == View(r, s, index[i].0, SlotSet(index[i].1))
  {
    var init, last := index[..|index| - 1], index[|index| - 1];
    AnswersLast(r, s, init, last);
    assert index == init + [last];
    if i < |index| - 1 {
      AnswerAt(r, s, init, i);
      assert index[i].0 != index[|index| - 1].0;
    }
  }

  /** With one request for each address, every answer is the answer to its request. */
  lemma {:induction false} AnswersDistinct(r: Remote, s: ChainState, index: Requests)
    requires Distinct(index)
    ensures AnswersFrom(r, s, Answers(r, s, index), index)
    ensures Answers(r, s, index).Keys == Addresses(index)
  {
    forall i | 0 <= i < |index|
      ensures index[i].0 in Answers(r, s, index)
      ensures Fits(r, s, index[i].0, Answers(r, s, index)[index[i].0])
      ensures forall k :: k in index[i].1 ==> k in Answers(r, s, index)[index[i].0].storageProofs
    {
      AnswerAt(r, s, index, i);
    }
  }

  /** What the answers know when the index names each address of a list once with all its slots. */
  lemma {:induction false} AnswersToNamed(r: Remote, s: ChainState, named: Requests, index: Requests)
    requires Distinct(index) && Addresses(index) == Addresses(named)
    requires forall e :: e in index ==> SlotSet(e.1) == SlotsNamed(named, e.0)
    ensures Answers(r, s, index).Keys == Addresses(named)
    ensures forall a :: a in Answers(r, s, index) ==> Answers(r, s, index)[a].storageProofs.Keys == SlotsNamed(named, a)
  {
    AnswersDistinct(r, s, index);
    forall a | a in Answers(r, s, index) ensures Answers(r, s, index)[a].storageProofs.Keys == SlotsNamed(named, a) {
      var i :| 0 <= i < |index| && index[i].0 == a;
      assert index[i] in index;
      AnswerAt(r, s, index, i);
    }
  }

  // ------------------------------------------------------------------------ the witness

  /** What the witness holds, in terms of what was cached when it was made. */
  ghost predicate InWitness(r: Remote, cache: Cache, updates: map<Address, set<SlotKey>>, n: Node) {
    exists a :: a in cache && CalledFor(r, a, Wanted(cache, updates, a), n)
  }

  /** The nodes are those of a witness made while the given accounts were cached. */
  ghost predicate WitnessState(r: Remote, cache: Cache, updates: map<Address, set<SlotKey>>, nodes: seq<Node>) {
    forall n :: n in nodes <==> InWitness(r, cache, updates, n)
  }

  /** The witness was made for every slot that the block changes. */
  ghost predicate WantsChanged(cache: Cache, updates: map<Address, set<SlotKey>>) {
    forall a :: a in updates ==> a in cache && updates[a] <= Wanted(cache, updates, a)
  }

  lemma {:induction false} IndexedWitness(r: Remote, cache: Cache, updates: map<Address, set<SlotKey>>,
      index: Requests, initial: Accounts, final: Accounts)
    requires IndexOf(cache, updates, index)
    requires AnswersFrom(r, r.pre, initial, index) && AnswersFrom(r, r.post, final, index)
    ensures forall n :: n in AllNodes(initial, final, index, r.hashAddress, r.hashSlot) <==>
            InWitness(r, cache, updates, n)
  {
    forall n
      ensures n in AllNodes(initial, final, index, r.hashAddress, r.hashSlot) <==> InWitness(r, cache, updates, n)
    {
      AssembledExactly(r, initial, final, index, n);
      if a :| a in cache && CalledFor(r, a, Wanted(cache, updates, a), n) {
        assert a in Addresses(index);
      }
    }
  }

  predicate KeyOf(accounts: Accounts, entry: (Address, seq<SlotKey>), key: WitnessKey)
    requires entry.0 in accounts
  {
    accounts[entry.0].Existing? && (key == AddressKey(entry.0) || (key.StorageKey? && key.slot in entry.1))
  }

  function CodeOf(account: Account): Bytes
    requires account.Existing?
  {
    if account.code.Some? then account.code.value else []
  }

  /** The code of every existing account is there, an empty one for an account without code. */
  ghost predicate CoversCodes(r: Remote, addresses: set<Address>, codes: seq<Bytes>) {
    forall a :: a in addresses && Exists(r, r.pre, a) ==> r.pre.code(a) in codes
  }

  lemma {:induction false} CodesCoverAddresses(r: Remote, index: Requests, initial: Accounts, codes: seq<Bytes>)
    requires HonestState(r, r.pre) && AnswersFrom(r, r.pre, initial, index)
    requires forall i :: 0 <= i < |index| && initial[index[i].0].Existing? ==> CodeOf(initial[index[i].0]) in codes
    ensures CoversCodes(r, Addresses(index), codes)
  {
    forall a | a in Addresses(index) && Exists(r, r.pre, a) ensures r.pre.code(a) in codes {
      var i :| 0 <= i < |index| && index[i].0 == a;
      assert CodeOf(initial[a]) == r.pre.code(a);
    }
  }

  /** Addresses, slots and codes of the accounts that exist before the block. */
  method CollectKeys(accounts: Accounts, index: Requests) returns (keys: seq<WitnessKey>, codes: seq<Bytes>)
    requires Answered(accounts, index)
    ensures forall key :: key in keys <==> exists i :: 0 <= i < |index| && KeyOf(accounts, index[i], key)
    ensures forall code :: code in codes <==>
              exists i :: 0 <= i < |index| && accounts[index[i].0].Existing? && CodeOf(accounts[index[i].0]) == code
  {
    keys, codes := [], [];
    for i := 0 to |index|
      invariant forall key :: key in keys <==> exists j :: 0 <= j < i && KeyOf(accounts, index[j], key)
      invariant forall code :: code in codes <==>
                  exists j :: 0 <= j < i && accounts[index[j].0].Existing? && CodeOf(accounts[index[j].0]) == code
    {
      var account := accounts[index[i].0];
      if account.Existing? {
        var slots := seq(|index[i].1|, j requires 0 <= j < |index[i].1| => StorageKey(index[i].1[j]));
        assert forall k :: k in index[i].1 ==> StorageKey(k) in slots by {
          forall k | k in index[i].1 ensures StorageKey(k) in slots {
            var j :| 0 <= j < |index[i].1| && index[i].1[j] == k;
            assert slots[j] == StorageKey(k);
          }
        }
        keys := keys + [AddressKey(index[i].0)] + slots;
        codes := codes + [CodeOf(account)];
      }
    }
  }

  /** The existing accounts of a cache and their cached slots are all among the keys. */
  ghost predicate Covers(r: Remote, cache: Cache, keys: seq<WitnessKey>) {
    && (forall a :: a in cache && Exists(r, r.pre, a) ==> AddressKey(a) in keys)
    && (forall a, k :: a in cache && Exists(r, r.pre, a) && k in cache[a].storageProofs ==> StorageKey(k) in keys)
  }

  /** Every existing account that was read, and every slot read of one, is among the keys. */
  ghost predicate CoversReads(r: Remote, addresses: set<Address>, slots: set<(Address, SlotKey)>,
      keys: seq<WitnessKey>) {
    && (forall a :: a in addresses && Exists(r, r.pre, a) ==> AddressKey(a) in keys)
    && (forall p :: p in slots && Exists(r, r.pre, p.0) ==> StorageKey(p.1) in keys)
  }

  lemma {:induction false} CoveredReads(r: Remote, cache: Cache, addresses: set<Address>,
      slots: set<(Address, SlotKey)>, keys: seq<WitnessKey>)
    requires Covers(r, cache, keys) && Remembers(cache, addresses, slots)
    ensures CoversReads(r, addresses, slots, keys)
  {
  }

  lemma {:induction false} KeysCoverCache(r: Remote, cache: Cache, updates: map<Address, set<SlotKey>>,
      index: Requests, initial: Accounts, keys: seq<WitnessKey>)
    requires IndexOf(cache, updates, index) && Coherent(r, r.pre, cache) && AnswersFrom(r, r.pre, initial, index)
    requires forall key :: key in keys <==> exists i :: 0 <= i < |index| && KeyOf(initial, index[i], key)
    ensures Covers(r, cache, keys)
  {
    forall a | a in cache && Exists(r, r.pre, a)
      ensures AddressKey(a) in keys
      ensures forall k :: k in cache[a].storageProofs ==> StorageKey(k) in keys
    {
      assert a in Addresses(index);
      var i :| 0 <= i < |index| && index[i].0 == a;
      assert index[i] in index;
      assert KeyOf(initial, index[i], AddressKey(a));
      forall k | k in cache[a].storageProofs ensures StorageKey(k) in keys {
        assert k in SlotSet(index[i].1);
        assert KeyOf(initial, index[i], StorageKey(k));
      }
    }
  }

  /** The keys are the existing accounts of the cache and their cached slots, and nothing else. */
  ghost predicate ExactKeys(r: Remote, cache: Cache, keys: seq<WitnessKey>) {
    forall key :: key in keys <==> KeyCalledFor(r, cache, key)
  }

  ghost predicate KeyCalledFor(r: Remote, cache: Cache, key: WitnessKey) {
    exists a :: a in cache && Exists(r, r.pre, a) && KeyFor(cache, a, key)
  }

  predicate KeyFor(cache: Cache, a: Address, key: WitnessKey)
    requires a in cache
  {
    match key
    case AddressKey(b) => b == a
    case StorageKey(k) => k in cache[a].storageProofs
  }

  /** The codes are those of the existing accounts of the cache, and no others. */
  ghost predicate ExactCodes(r: Remote, cache: Cache, codes: seq<Bytes>) {
    forall code :: code in codes <==> exists a :: a in cache && Exists(r, r.pre, a) && r.pre.code(a) == code
  }

  lemma {:induction false} KeysExactly(r: Remote, cache: Cache, updates: map<Address, set<SlotKey>>,
      index: Requests, initial: Accounts, keys: seq<WitnessKey>)
    requires IndexOf(cache, updates, index) && Coherent(r, r.pre, cache) && AnswersFrom(r, r.pre, initial, index)
    requires forall key :: key in keys <==> exists i :: 0 <= i < |index| && KeyOf(initial, index[i], key)
    ensures ExactKeys(r, cache, keys)
  {
    KeysCoverCache(r, cache, updates, index, initial, keys);
    forall key ensures key in keys <==> KeyCalledFor(r, cache, key) {
      if key in keys {
        var i :| 0 <= i < |index| && KeyOf(initial, index[i], key);
        KeyInCache(r, cache, updates, index, initial, i, key);
      } else {
        OnlyCovered(r, cache, keys, key);
      }
    }
  }

  lemma {:induction false} OnlyCovered(r: Remote, cache: Cache, keys: seq<WitnessKey>, key: WitnessKey)
    requires Covers(r, cache, keys) && key !in keys
    ensures !KeyCalledFor(r, cache, key)
  {
  }

  lemma {:induction false} KeyInCache(r: Remote, cache: Cache, updates: map<Address, set<SlotKey>>,
      index: Requests, initial: Accounts, i: nat, key: WitnessKey)
    requires IndexOf(cache, updates, index) && Coherent(r, r.pre, cache) && AnswersFrom(r, r.pre, initial, index)
    requires i < |index| && KeyOf(initial, index[i], key)
    ensures KeyCalledFor(r, cache, key)
  {
    var entry := index[i];
    assert entry in index && entry.0 in Addresses(index);
    assert Fits(r, r.pre, entry.0, initial[entry.0]);
    if key.StorageKey? {
      assert key.slot in SlotSet(entry.1);
      WantedExactly(r, cache, updates, entry.0, key.slot);
    }
    assert KeyFor(cache, entry.0, key);
  }

  lemma {:induction false} CodesExactly(r: Remote, cache: Cache, updates: map<Address, set<SlotKey>>,
      index: Requests, initial: Accounts, codes: seq<Bytes>)
    requires HonestState(r, r.pre) && IndexOf(cache, updates, index) && AnswersFrom(r, r.pre, initial, index)
    requires forall code :: code in codes <==>
               exists i :: 0 <= i < |index| && initial[index[i].0].Existing? && CodeOf(initial[index[i].0]) == code
    ensures ExactCodes(r, cache, codes)
  {
    forall i | 0 <= i < |index|
      ensures index[i].0 in cache && (initial[index[i].0].Existing? <==> Exists(r, r.pre, index[i].0))
      ensures initial[index[i].0].Existing? ==> CodeOf(initial[index[i].0]) == r.pre.code(index[i].0)
    {
      assert index[i].0 in Addresses(index);
    }
    forall a | a in cache ensures exists i :: 0 <= i < |index| && index[i].0 == a {
      assert a in Addresses(index);
    }
  }

  /** What has been gathered for an index, all together. */
  lemma {:induction false} GatheredCovers(r: Remote, cache: Cache, updates: map<Address, set<SlotKey>>, index: Requests,
      initial: Accounts, final: Accounts, keys: seq<WitnessKey>, codes: seq<Bytes>,
      addresses: set<Address>, slots: set<(Address, SlotKey)>)
    requires HonestState(r, r.pre) && IndexOf(cache, updates, index) && Coherent(r, r.pre, cache)
    requires AnswersFrom(r, r.pre, initial, index) && AnswersFrom(r, r.post, final, index)
    requires forall key :: key in keys <==> exists i :: 0 <= i < |index| && KeyOf(initial, index[i], key)
    requires forall code :: code in codes <==>
               exists i :: 0 <= i < |index| && initial[index[i].0].Existing? && CodeOf(initial[index[i].0]) == code
    requires Remembers(cache, addresses, slots)
    ensures WitnessState(r, cache, updates, AllNodes(initial, final, index, r.hashAddress, r.hashSlot))
    ensures CoversReads(r, addresses, slots, keys) && CoversCodes(r, addresses, codes)
    ensures ExactKeys(r, cache, keys) && ExactCodes(r, cache, codes)
  {
    IndexedWitness(r, cache, updates, index, initial, final);
    KeysCoverCache(r, cache, updates, index, initial, keys);
    CoveredReads(r, cache, addresses, slots, keys);
    CodesCoverAddresses(r, index, initial, codes);
    KeysExactly(r, cache, updates, index, initial, keys);
    CodesExactly(r, cache, updates, index, initial, codes);
  }

  /** Nodes, keys and codes from the accounts fetched for an index. */
  method Gather(ghost r: Remote, ghost cache: Cache, ghost updates: map<Address, set<SlotKey>>, index: Requests,
      initial: Accounts, final: Accounts, hashAddress: Address -> Path, hashSlot: SlotKey -> Path,
      ghost addresses: set<Address>, ghost slots: set<(Address, SlotKey)>)
    returns (nodes: seq<Node>, keys: seq<WitnessKey>, codes: seq<Bytes>)
    requires hashAddress == r.hashAddress && hashSlot == r.hashSlot
    requires HonestState(r, r.pre) && IndexOf(cache, updates, index) && Coherent(r, r.pre, cache)
    requires AnswersFrom(r, r.pre, initial, index) && AnswersFrom(r, r.post, final, index)
    requires Remembers(cache, addresses, slots)
    ensures WitnessState(r, cache, updates, nodes)
    ensures CoversReads(r, addresses, slots, keys) && CoversCodes(r, addresses, codes)
    ensures ExactKeys(r, cache, keys) && ExactCodes(r, cache, codes)
  {
    nodes := Assemble(initial, final, index, hashAddress, hashSlot);
    keys, codes := CollectKeys(initial, index);
    GatheredCovers(r, cache, updates, index, initial, final, keys, codes, addresses, slots);
  }

  /** A database that has read what the block changes makes the witness for it. */
  lemma {:induction false} ReadsAreWanted(r: Remote, cache: Cache, updates: map<Address, set<SlotKey>>)
    requires Coherent(r, r.pre, cache) && updates.Keys <= cache.Keys
    requires forall a, k :: a in updates && k in updates[a] && Exists(r, r.pre, a) ==> k in cache[a].storageProofs
    ensures WantsChanged(cache, updates)
  {
    forall a | a in updates ensures updates[a] <= Wanted(cache, updates, a) {
      assert Fits(r, r.pre, a, cache[a]);
    }
  }

  /** For an account that exists before the block the witness is made for its cached slots, for any other
      cached account for the slots that the block adds to it. */
  lemma {:induction false} WantedExactly(r: Remote, cache: Cache, updates: map<Address, set<SlotKey>>,
      a: Address, k: SlotKey)
    requires Coherent(r, r.pre, cache) && a in cache
    ensures k in Wanted(cache, updates, a) <==>
            if Exists(r, r.pre, a) then k in cache[a].storageProofs else a in updates && k in updates[a]
  {
    assert Fits(r, r.pre, a, cache[a]);
  }

  // ------------------------------------------------------------------------- headers

  /** The headers of consecutive blocks up to the parent: from the oldest block whose hash was read, the
      parent's alone if none was, and none if only hashes of the block itself or later ones were read. */
  ghost predicate HeadersFrom(hashed: set<nat>, number: nat, headers: seq<nat>) {
    && (hashed == {} ==> headers == [number - 1])
    && (forall i :: 0 <= i < |headers| ==> headers[i] == number - |headers| + i)
    && (hashed != {} ==> forall n :: n in headers <==> n < number && exists m :: m in hashed && m <= n)
  }

  method Oldest(numbers: set<nat>) returns (oldest: nat)
    requires numbers != {}
    ensures oldest in numbers && forall n :: n in numbers ==> oldest <= n
  {
    var n :| n in numbers;
    oldest := n;
    var pending := numbers - {n};
    while pending != {}
      invariant pending <= numbers && oldest in numbers
      invariant forall m :: m in numbers && m !in pending ==> oldest <= m
      decreases pending
    {
      var m :| m in pending;
      if m < oldest {
        oldest := m;
      }
      pending := pending - {m};
    }
  }

  method HeaderNumbers(hashed: set<nat>, number: nat) returns (headers: seq<nat>)
    requires 0 < number
    ensures HeadersFrom(hashed, number, headers)
  {
    var oldest := number - 1;
    if hashed != {} {
      oldest := Oldest(hashed);
    }
    headers := [];
    var n := oldest;
    while n < number
      invariant oldest <= n && (oldest <= number ==> n <= number) && (number <= oldest ==> n == oldest)
      invariant |headers| == n - oldest && forall i :: 0 <= i < |headers| ==> headers[i] == oldest + i
    {
      headers := headers + [n];
      n := n + 1;
    }
    forall m | oldest <= m < number ensures m in headers {
      assert headers[m - oldest] == m;
    }
    assert hashed != {} ==> oldest in hashed;
  }
}
