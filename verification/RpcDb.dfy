/** The database that reads through to the remote node, remembers what it has read, and builds
    the execution witness from what it remembers.  One thread at a time. */
module RpcDb {
  import opened Options
  import opened Trie
  import opened PartialTrie
  import opened Witness
  import opened Rpc
  import opened Assembly
  import opened Caches
  import opened Execution
  import opened Gathering

  class RpcDB {
    const remote: Remote
    const blockNumber: nat
    const rps: nat
    var cache: Cache
    var childCache: Cache
    var blockHashes: map<nat, nat>
    var codes: map<CodeHash, Bytes>

    // What has been asked for so far, and when.
    ghost var readAddresses: set<Address>
    ghost var readSlots: set<(Address, SlotKey)>
    ghost var readHashes: set<nat>
    ghost var returnedCodes: set<CodeHash>
    ghost var sent: seq<Pacing.Batch>
    ghost var now: nat

    ghost predicate Valid()
      reads this
    {
      && Honest(remote) && 0 < rps && 0 < blockNumber
      && CacheValid() && ChildValid() && HashesValid() && CodesValid() && PaceValid()
    }

    /** The cache of the state before the block agrees with the remote, and nothing that was read has
        been forgotten. */
    ghost predicate CacheValid()
      reads `cache, `readAddresses, `readSlots
    {
      Coherent(remote, remote.pre, cache) && Remembers(cache, readAddresses, readSlots)
    }

    /** So does the cache of the state after the block. */
    ghost predicate ChildValid()
      reads `childCache
    {
      Coherent(remote, remote.post, childCache)
    }

    /** The block hashes read, and no others, are there as the remote gives them. */
    ghost predicate HashesValid()
      reads `blockHashes, `readHashes
    {
      readHashes == blockHashes.Keys && forall n :: n in blockHashes ==> blockHashes[n] == remote.blockHash(n)
    }

    /** Codes are filed by hash; those of cached accounts and those read are among them. */
    ghost predicate CodesValid()
      reads `cache, `codes, `returnedCodes
    {
      && CodesFiled(codes) && CodesKnown(cache, codes)
      && forall h :: h in returnedCodes ==> h in codes || h == EmptyCodeHash()
    }

    ghost predicate PaceValid()
      requires 0 < rps
      reads `sent, `now
    {
      Pacing.Paced(sent, now, rps, Pacing.RateLimit(rps))
    }

    /** What is known and what has been sent is kept; time goes on. */
    twostate predicate Grown()
      reads `cache, `sent, `now
    {
      Extends(old(cache), cache) && old(sent) <= sent && old(now) <= now
    }

    constructor (remote: Remote, blockNumber: nat, rps: nat)
      requires Honest(remote) && 0 < rps && 0 < blockNumber
      ensures Valid() && cache == map[] && childCache == map[]
      ensures this.remote == remote && this.blockNumber == blockNumber && this.rps == rps
      ensures readAddresses == {} && readSlots == {} && readHashes == {} && returnedCodes == {} && sent == []
    {
      this.remote, this.blockNumber, this.rps := remote, blockNumber, rps;
      cache, childCache, blockHashes, codes := map[], map[], map[], map[];
      readAddresses, readSlots, readHashes, returnedCodes, sent, now := {}, {}, {}, {}, [], 0;
    }

    function StateAt(fromChild: bool): ChainState {
      if fromChild then remote.post else remote.pre
    }

    /** One eth_getProof: existence is decided from the proof, and the code is taken from the code
        cache or fetched into it. */
    method GetAccount(fromChild: bool, a: Address, keys: seq<SlotKey>) returns (account: Account)
      requires Honest(remote) && CodesValid()
      modifies this`codes
      ensures CodesValid()
      ensures account == View(remote, StateAt(fromChild), a, SlotSet(keys))
      ensures old(codes).Keys <= codes.Keys
      ensures account.Existing? && account.code.Some? ==> KeccakCode(account.code.value) in codes
    {
      var s := StateAt(fromChild);
      var storage := map k | k in keys :: s.slot(a, k);
      var storageProofs := map k | k in keys :: SlotProof(remote, s, a, k);
      var accountProof := AccountProof(remote, s, a);
      var stateNodes := NodesByHash(accountProof);
      PresenceIsExact(s.accounts, remote.hashAddress(a));
      var found := LookupRoot(stateNodes, Keccak(accountProof[0]), remote.hashAddress(a));
      if found == Ok(None) {
        return NonExisting(accountProof, storageProofs);
      }
      var code := FetchCode(fromChild, a);
      return Existing(s.info(a), storage, accountProof, storageProofs, code);
    }

    /** The account's code, if it has any: from the code cache, or fetched into it. */
    method FetchCode(fromChild: bool, a: Address) returns (code: Option<Bytes>)
      requires Honest(remote) && CodesValid()
      modifies this`codes
      ensures CodesValid()
      ensures var s := StateAt(fromChild);
              code == if s.info(a).codeHash == EmptyCodeHash() then None else Some(s.code(a))
      ensures old(codes).Keys <= codes.Keys
      ensures code.Some? ==> KeccakCode(code.value) in codes
    {
      var s := StateAt(fromChild);
      assert HonestState(remote, s);
      var hash := s.info(a).codeHash;
      if hash == EmptyCodeHash() {
        return None;
      } else if hash in codes {
        return Some(codes[hash]);
      } else {
        codes := codes[hash := s.code(a)];
        return Some(s.code(a));
      }
    }

    /** The requests of one batch; together they take as long as they take. */
    method FetchChunk(chunk: Requests, fromChild: bool) returns (fetched: Cache)
      requires Honest(remote) && CodesValid()
      modifies this`codes
      ensures CodesValid()
      ensures fetched == Answers(remote, StateAt(fromChild), chunk)
      ensures old(codes).Keys <= codes.Keys && CodesKnown(fetched, codes)
    {
      fetched := map[];
      for i := 0 to |chunk|
        invariant CodesValid()
        invariant fetched == Answers(remote, StateAt(fromChild), chunk[..i])
        invariant old(codes).Keys <= codes.Keys && CodesKnown(fetched, codes)
      {
        var account := GetAccount(fromChild, chunk[i].0, chunk[i].1);
        fetched := fetched[chunk[i].0 := account];
        assert chunk[..i + 1][..i] == chunk[..i];
      }
      assert chunk[..|chunk|] == chunk;
    }

    /** Chunk i of the requests, its answers added to those of the chunks before. */
    method SendChunk(chunks: seq<Requests>, i: nat, fromChild: bool, before: Cache) returns (fetched: Cache)
      requires Honest(remote) && CodesValid() && 0 < rps && PaceValid()
      requires i < |chunks| && |chunks[i]| <= rps
      requires before == Answers(remote, StateAt(fromChild), Pacing.Concat(chunks[..i])) && CodesKnown(before, codes)
      modifies this`codes, this`sent, this`now
      ensures CodesValid() && PaceValid()
      ensures fetched == Answers(remote, StateAt(fromChild), Pacing.Concat(chunks[..i + 1])) &&
              CodesKnown(fetched, codes)
      ensures old(codes).Keys <= codes.Keys
      ensures sent == old(sent) + [Pacing.Batch(old(now), |chunks[i]|)] && old(now) <= now
    {
      var fetchedChunk := FetchChunk(chunks[i], fromChild);
      ghost var _ := Cooldown(|chunks[i]|);
      fetched := before + fetchedChunk;
      AnswersOfChunk(remote, StateAt(fromChild), chunks, i);
    }

    /** All requests of an index, in batches, each followed by its cooldown. */
    method FetchInChunks(index: Requests, fromChild: bool) returns (fetched: Cache)
      requires Honest(remote) && CodesValid() && 0 < rps && PaceValid()
      modifies this`codes, this`sent, this`now
      ensures CodesValid() && PaceValid()
      ensures fetched == Answers(remote, StateAt(fromChild), index)
      ensures old(codes).Keys <= codes.Keys && CodesKnown(fetched, codes)
      ensures old(sent) <= sent && old(now) <= now
      ensures SentAs(sent[|old(sent)|..], Pacing.Chunks(index, rps))
    {
      fetched := map[];
      var chunks := Pacing.Chunks(index, rps);
      ghost var before := sent;
      for i := 0 to |chunks|
        invariant CodesValid() && PaceValid()
        invariant fetched == Answers(remote, StateAt(fromChild), Pacing.Concat(chunks[..i])) &&
                  CodesKnown(fetched, codes)
        invariant old(codes).Keys <= codes.Keys && old(now) <= now
        invariant before <= sent && SentAs(sent[|before|..], chunks[..i])
      {
        fetched := SendChunk(chunks, i, fromChild, fetched);
        SentOneMore(before, sent, chunks, i);
      }
      assert chunks[..|chunks|] == chunks;
      Pacing.ChunksConcat(index, rps);
    }

    /** Records a batch of requests sent at the present time.  They take any time to be answered;
        the next batch is not sent before the cooldown for their number is over. */
    ghost method Cooldown(size: nat) returns (batch: Pacing.Batch)
      requires 0 < rps && PaceValid() && size <= rps
      modifies this`sent, this`now
      ensures PaceValid()
      ensures batch == Pacing.Batch(old(now), size) && sent == old(sent) + [batch] && old(now) <= now
    {
      var elapsed: nat := *;
      var gap := size * Pacing.RateLimit(rps);
      var later := now + if gap < elapsed then elapsed else gap;
      Pacing.PacedAppend(sent, now, rps, Pacing.RateLimit(rps), size, later);
      batch := Pacing.Batch(now, size);
      sent, now := sent + [batch], later;
    }

    /** Files the code of every fetched account under its hash. */
    method FileCodes(fetched: Cache)
      requires CodesValid()
      modifies this`codes
      ensures CodesValid() && old(codes).Keys <= codes.Keys && CodesKnown(fetched, codes)
    {
      var pending := fetched.Keys;
      while pending != {}
        invariant pending <= fetched.Keys
        invariant CodesValid() && old(codes).Keys <= codes.Keys
        invariant forall a :: a in fetched.Keys - pending && fetched[a].Existing? && fetched[a].code.Some? ==>
                    KeccakCode(fetched[a].code.value) in codes
        decreases pending
      {
        var a :| a in pending;
        if fetched[a].Existing? && fetched[a].code.Some? {
          var code := fetched[a].code.value;
          codes := codes[KeccakCode(code) := code];
        }
        pending := pending - {a};
      }
    }

    /** Fetches accounts, merges them into the cache of their state, and files their codes. */
    method FetchAccounts(index: Requests, fromChild: bool) returns (fetched: Cache)
      requires Valid()
      modifies this`cache, this`childCache, this`codes, this`sent, this`now
      ensures Valid() && Grown()
      ensures fetched == Answers(remote, StateAt(fromChild), index)
      ensures cache == if fromChild then old(cache) else MergeAll(old(cache), fetched)
      ensures childCache == if fromChild then MergeAll(old(childCache), fetched) else old(childCache)
      ensures CodesKnown(fetched, codes) && old(codes).Keys <= codes.Keys
      ensures SentAs(sent[|old(sent)|..], Pacing.Chunks(index, rps))
    {
      fetched := FetchInChunks(index, fromChild);
      Store(fetched, fromChild);
    }

    /** Merges answers into the cache of their state and files their codes. */
    method Store(fetched: Cache, fromChild: bool)
      requires CacheValid() && ChildValid() && CodesValid()
      requires Coherent(remote, StateAt(fromChild), fetched) && CodesKnown(fetched, codes)
      modifies this`cache, this`childCache, this`codes
      ensures CacheValid() && ChildValid() && CodesValid() && Extends(old(cache), cache)
      ensures cache == if fromChild then old(cache) else MergeAll(old(cache), fetched)
      ensures childCache == if fromChild then MergeAll(old(childCache), fetched) else old(childCache)
      ensures CodesKnown(fetched, codes) && old(codes).Keys <= codes.Keys
    {
      if fromChild {
        StoreFetchedChild(fetched);
      } else {
        StoreFetched(fetched);
      }
      FileCodes(fetched);
    }

    method StoreFetchedChild(fetched: Cache)
      requires ChildValid() && Coherent(remote, remote.post, fetched)
      modifies this`childCache
      ensures ChildValid() && childCache == MergeAll(old(childCache), fetched)
    {
      MergeAllCoherent(remote, remote.post, childCache, fetched);
      childCache := MergeInto(remote, remote.post, childCache, fetched);
    }

    method StoreFetched(fetched: Cache)
      requires CacheValid() && CodesValid() && Coherent(remote, remote.pre, fetched) && CodesKnown(fetched, codes)
      modifies this`cache
      ensures CacheValid() && CodesValid() && Extends(old(cache), cache)
      ensures cache == MergeAll(old(cache), fetched)
    {
      var merged := MergeInto(remote, remote.pre, cache, fetched);
      MergedCodes(cache, fetched, codes);
      MergeAllCoherent(remote, remote.pre, cache, fetched);
      StillRemembers(cache, merged, readAddresses, readSlots);
      cache := merged;
    }

    /** Whatever has been called: no second has seen more than twice the requests asked for. */
    lemma {:induction false} EverySecond(from: nat)
      requires Valid() && rps <= 1000
      ensures Pacing.Started(sent, from, from + Pacing.SECOND) <= 2 * rps
    {
      Pacing.SecondBound(sent, now, rps, from);
    }

    // ------------------------------------------------------------------ database reads

    /** Fetches one account into the cache. */
    method FetchOne(a: Address, keys: seq<SlotKey>) returns (account: Account)
      requires Valid()
      modifies this`cache, this`childCache, this`codes, this`sent, this`now
      ensures Valid() && Grown()
      ensures account == View(remote, remote.pre, a, SlotSet(keys))
      ensures a in cache && (a !in old(cache) ==> cache[a] == account)
      ensures forall k :: k in keys ==> k in cache[a].storageProofs
    {
      var fetched := FetchAccounts([(a, keys)], false);
      AnswersOne(remote, remote.pre, a, keys);
      MergeAllCoherent(remote, remote.pre, old(cache), fetched);
      account := fetched[a];
    }

    /** Files a code under its hash unless there is one already. */
    method KeepCode(code: Bytes)
      requires CodesValid()
      modifies this`codes
      ensures CodesValid() && KeccakCode(code) in codes && old(codes).Keys <= codes.Keys
    {
      var hash := KeccakCode(code);
      if hash !in codes {
        codes := codes[hash := code];
      }
    }

    /** The account as cached, fetched first if need be.  The fetch has already put it into the
        cache; with no other thread about, putting it there again changes nothing. */
    method CachedAccount(a: Address) returns (account: Account)
      requires Valid()
      modifies this`cache, this`childCache, this`codes, this`sent, this`now
      ensures Valid() && Grown()
      ensures a in cache && account == cache[a]
    {
      if a in cache {
        account := cache[a];
      } else {
        account := FetchOne(a, []);
        label fetched:
        cache := cache[a := account];
        assert cache == old@fetched(cache);
      }
    }

    method CachedAccountAndCode(a: Address) returns (account: Account)
      requires Valid()
      modifies this`cache, this`childCache, this`codes, this`sent, this`now
      ensures Valid() && Grown()
      ensures a in cache && account == cache[a]
    {
      account := CachedAccount(a);
      if account.Existing? && account.code.Some? {
        KeepCode(account.code.value);
      }
    }

    ghost method NoteAddress(a: Address, hash: CodeHash)
      requires CacheValid() && CodesValid() && a in cache && (hash in codes || hash == EmptyCodeHash())
      modifies this`readAddresses, this`returnedCodes
      ensures CacheValid() && CodesValid()
      ensures readAddresses == old(readAddresses) + {a} && returnedCodes == old(returnedCodes) + {hash}
    {
      readAddresses, returnedCodes := readAddresses + {a}, returnedCodes + {hash};
    }

    method GetAccountState(a: Address) returns (state: AccountState)
      requires Valid()
      modifies this
      ensures Valid() && Grown()
      ensures state == RemoteState(remote, a)
      ensures Exists(remote, remote.pre, a) ==> state == remote.pre.info(a)
      ensures !Exists(remote, remote.pre, a) ==>
                state.nonce == 0 && state.balance == 0 && state.storageRoot == None && state.codeHash == KeccakCode([])
      ensures readAddresses == old(readAddresses) + {a} && returnedCodes == old(returnedCodes) + {state.codeHash}
      ensures readSlots == old(readSlots) && readHashes == old(readHashes)
    {
      var account := CachedAccountAndCode(a);
      state := StateOf(account);
      CachedState(remote, a, account, codes);
      NoteAddress(a, state.codeHash);
    }

    method SlotValue(a: Address, k: SlotKey) returns (value: Word)
      requires Valid()
      modifies this`cache, this`childCache, this`codes, this`sent, this`now
      ensures Valid() && Grown()
      ensures value == RemoteSlot(remote, a, k)
      ensures a in cache && k in cache[a].storageProofs
    {
      if a in cache && cache[a].Existing? && k in cache[a].storage {
        value := cache[a].storage[k];
      } else {
        var account := FetchOne(a, [k]);
        value := if account.Existing? && k in account.storage then account.storage[k] else 0;
      }
    }

    ghost method NoteSlot(a: Address, k: SlotKey)
      requires CacheValid() && a in cache && k in cache[a].storageProofs
      modifies this`readSlots
      ensures CacheValid() && readSlots == old(readSlots) + {(a, k)}
    {
      readSlots := readSlots + {(a, k)};
    }

    method GetStorageValue(a: Address, k: SlotKey) returns (value: Word)
      requires Valid()
      modifies this
      ensures Valid() && Grown()
      ensures value == RemoteSlot(remote, a, k)
      ensures value == if Exists(remote, remote.pre, a) then remote.pre.slot(a, k) else 0
      ensures readSlots == old(readSlots) + {(a, k)}
      ensures readAddresses == old(readAddresses) && readHashes == old(readHashes) &&
              returnedCodes == old(returnedCodes)
    {
      value := SlotValue(a, k);
      NoteSlot(a, k);
    }

    /** Succeeds for every code hash that an account read has returned, with code of that hash. */
    method GetAccountCode(hash: CodeHash) returns (code: Outcome<Bytes>)
      requires Valid()
      ensures code.Success? ==> KeccakCode(code.value) == hash
      ensures hash in returnedCodes ==> code.Success?
      ensures code.Failure? <==> hash != EmptyCodeHash() && hash !in codes
    {
      if hash == EmptyCodeHash() {
        return Success([]);
      } else if hash in codes {
        return Success(codes[hash]);
      } else {
        return Failure;
      }
    }

    method GetBlockHash(n: nat) returns (hash: nat)
      requires HashesValid()
      modifies this`blockHashes, this`readHashes
      ensures HashesValid()
      ensures hash == remote.blockHash(n) && readHashes == old(readHashes) + {n}
    {
      if n in blockHashes {
        hash := blockHashes[n];
      } else {
        hash := remote.blockHash(n);
        blockHashes := blockHashes[n := hash];
      }
      readHashes := readHashes + {n};
    }

    // --------------------------------------------------------------------- prefetching

    /** Fetches everything the block's transactions name and makes it the cache.  Used once, on a
        new database. */
    method CacheAccounts(txs: seq<Tx>)
      requires Valid() && cache == map[] && readAddresses == {} && readSlots == {}
      modifies this`cache, this`childCache, this`codes, this`sent, this`now
      ensures Valid() && Grown()
      ensures forall a :: a in cache <==> exists tx :: tx in txs && NamesAddress(tx, a)
      ensures forall a, k :: a in cache ==>
              (k in cache[a].storageProofs <==> exists tx :: tx in txs && NamesSlot(tx, a, k))
    {
      NamedExactly(txs);
      var index := Dedup(NamedBy(txs));
      var fetched := FetchAccounts(index, false);
      MergeIntoEmpty(fetched);
      assert cache == fetched;
      AnswersToNamed(remote, remote.pre, NamedBy(txs), index);
      cache := fetched;
    }

    // ------------------------------------------------------------------------- witness

    /** The requests for the witness: for a cached account its cached slots, for one that does not
        exist the slots the block adds to it. */
    method BuildIndex(updates: map<Address, set<SlotKey>>) returns (index: Requests)
      ensures IndexOf(cache, updates, index)
    {
      index := [];
      var pending := cache.Keys;
      while pending != {}
        invariant pending <= cache.Keys && Distinct(index)
        invariant Addresses(index) == cache.Keys - pending
        invariant forall e :: e in index ==> SlotSet(e.1) == Wanted(cache, updates, e.0)
        decreases pending
      {
        var a :| a in pending;
        var keys := Enumerate(Wanted(cache, updates, a));
        AddressesAppend(index, (a, keys));
        index := index + [(a, keys)];
        pending := pending - {a};
      }
    }

    /** The accounts of an index of the cached addresses, before and after the block. */
    method FetchBoth(index: Requests) returns (initial: Accounts, final: Accounts)
      requires Valid() && Distinct(index) && Addresses(index) == cache.Keys
      modifies this`cache, this`childCache, this`codes, this`sent, this`now
      ensures Valid() && Grown() && cache.Keys == old(cache).Keys
      ensures AnswersFrom(remote, remote.pre, initial, index) && AnswersFrom(remote, remote.post, final, index)
    {
      AnswersDistinct(remote, remote.pre, index);
      AnswersDistinct(remote, remote.post, index);
      initial := FetchAccounts(index, false);
      final := FetchAccounts(index, true);
    }

    /** State nodes, keys and codes of the witness. */
    method GatherState(updates: Updates) returns (nodes: seq<Node>, keys: seq<WitnessKey>, witnessCodes: seq<Bytes>)
      requires Valid()
      modifies this`cache, this`childCache, this`codes, this`sent, this`now
      ensures Valid() && Grown() && cache.Keys == old(cache).Keys
      ensures WitnessState(remote, old(cache), updates, nodes)
      ensures CoversReads(remote, readAddresses, readSlots, keys) && CoversCodes(remote, readAddresses, witnessCodes)
      ensures ExactKeys(remote, old(cache), keys) && ExactCodes(remote, old(cache), witnessCodes)
    {
      var index := BuildIndex(updates);
      var initial, final := FetchBoth(index);
      nodes, keys, witnessCodes := Gather(remote, old(cache), updates, index, initial, final,
        remote.hashAddress, remote.hashSlot, readAddresses, readSlots);
    }

    // ------------------------------------------------------------------ pre-execution

    ghost function NotesSoFar(): Notes
      reads `readAddresses, `readSlots, `readHashes, `returnedCodes
    {
      Notes(readAddresses, readSlots, readHashes, returnedCodes)
    }

    /** Whatever has been noted stays noted. */
    twostate predicate KeepsNotes()
      reads `readAddresses, `readSlots, `readHashes, `returnedCodes
    {
      StillNoted(old(NotesSoFar()), NotesSoFar())
    }

    method AnsweredAccount(a: Address) returns (answer: Answer)
      requires Valid()
      modifies this
      ensures Valid() && Grown() && KeepsNotes()
      ensures Told(remote, AskAccount(a), answer) && NotedIn(NotesSoFar(), AskAccount(a), answer)
    {
      var state := GetAccountState(a);
      answer := AccountAnswer(state);
    }

    method AnsweredSlot(a: Address, k: SlotKey) returns (answer: Answer)
      requires Valid()
      modifies this
      ensures Valid() && Grown() && KeepsNotes()
      ensures Told(remote, AskSlot(a, k), answer) && NotedIn(NotesSoFar(), AskSlot(a, k), answer)
    {
      var word := GetStorageValue(a, k);
      answer := SlotAnswer(word);
    }

    method AnsweredHash(n: nat) returns (answer: Answer)
      requires Valid()
      modifies this`blockHashes, this`readHashes
      ensures Valid() && Grown() && KeepsNotes()
      ensures Told(remote, AskHash(n), answer) && NotedIn(NotesSoFar(), AskHash(n), answer)
    {
      var hash := GetBlockHash(n);
      answer := HashAnswer(hash);
    }

    method Answered(q: Query) returns (answer: Answer)
      requires Valid() && (q.AskCode? ==> q.hash in returnedCodes || q.hash == EmptyCodeHash())
      modifies this
      ensures Valid() && Grown() && KeepsNotes()
      ensures Told(remote, q, answer) && NotedIn(NotesSoFar(), q, answer)
    {
      match q
      case AskAccount(a) => answer := AnsweredAccount(a);
      case AskSlot(a, k) => answer := AnsweredSlot(a, k);
      case AskHash(n) => answer := AnsweredHash(n);
      case AskCode(hash) =>
        var code := GetAccountCode(hash);
        answer := CodeAnswer(code.value);
    }

    lemma {:induction false} SeenCodeReturned(course: Course, hash: CodeHash)
      requires AllNotedIn(NotesSoFar(), course) && CodeSeen(course, hash)
      ensures hash in returnedCodes || hash == EmptyCodeHash()
    {
      if hash != EmptyCodeHash() {
        var i :| 0 <= i < |course| && course[i].1.AccountAnswer? && course[i].1.state.codeHash == hash;
        assert NotedIn(NotesSoFar(), course[i].0, course[i].1);
      }
    }

    /** One more question of the block. */
    method AskNext(course: Course, q: Query) returns (longer: Course, ghost answer: Answer)
      requires Valid() && AllNotedIn(NotesSoFar(), course) && (q.AskCode? ==> CodeSeen(course, q.hash))
      modifies this
      ensures Valid() && Grown() && KeepsNotes()
      ensures longer == course + [(q, answer)] && Told(remote, q, answer) && AllNotedIn(NotesSoFar(), longer)
    {
      if q.AskCode? {
        SeenCodeReturned(course, q.hash);
      }
      ghost var before := NotesSoFar();
      var given := Answered(q);
      answer := given;
      longer := course + [(q, given)];
      NotedLater(before, NotesSoFar(), course, q, given);
    }

    /** Executes a block over the database, to its end: it takes the course it takes on the complete state. */
    method PreExecute(b: Block) returns (course: Course)
      requires Valid() && AsksKnownCode(b)
      modifies this
      ensures Valid() && Grown() && KeepsNotes()
      ensures Executes(remote, b, course) && AllNotedIn(NotesSoFar(), course)
      ensures forall i :: 0 <= i < |course| ==>
                b.Next(course[..i]) == Some(course[i].0) && Told(remote, course[i].0, course[i].1)
      ensures |course| == b.limit || b.Next(course).None?
    {
      course := [];
      while |course| < b.limit && b.Next(course).Some?
        invariant |course| <= b.limit && Follows(remote, b, course)
        invariant Valid() && Grown() && KeepsNotes() && AllNotedIn(NotesSoFar(), course)
        decreases b.limit - |course|
      {
        var q := b.Next(course).value;
        ghost var known, noted, before := cache, NotesSoFar(), course;
        ghost var answer;
        course, answer := AskNext(course, q);
        FollowsLonger(remote, b, before, q, answer);
        NothingForgotten(old(cache), known, cache, old(NotesSoFar()), noted, NotesSoFar());
      }
    }

    /** A block that has read what it changes has all of it in the cache. */
    lemma {:induction false} ChangedAreCached(b: Block, course: Course)
      requires Valid() && ReadsWhatItChanges(remote, b) && AllNotedIn(NotesSoFar(), course)
      ensures WantsChanged(cache, b.Changed(course))
    {
      var updates := b.Changed(course);
      forall a | a in updates ensures a in cache {
        assert Asked(course, AskAccount(a));
        var i :| 0 <= i < |course| && course[i].0 == AskAccount(a);
        assert NotedIn(NotesSoFar(), course[i].0, course[i].1);
      }
      forall a, k | a in updates && k in updates[a] && Exists(remote, remote.pre, a)
        ensures k in cache[a].storageProofs
      {
        assert Asked(course, AskSlot(a, k));
        var i :| 0 <= i < |course| && course[i].0 == AskSlot(a, k);
        assert NotedIn(NotesSoFar(), course[i].0, course[i].1);
      }
      ReadsAreWanted(remote, cache, updates);
    }

    /** Executes the block and says what it changes. */
    method StateTransitions(b: Block) returns (updates: Updates, ghost course: Course)
      requires Valid() && AsksKnownCode(b)
      modifies this
      ensures Valid() && Grown() && KeepsNotes()
      ensures Executes(remote, b, course) && AllNotedIn(NotesSoFar(), course) && updates == b.Changed(course)
      ensures ReadsWhatItChanges(remote, b) ==> WantsChanged(cache, updates)
    {
      var asked := PreExecute(b);
      course := asked;
      updates := b.Changed(asked);
      if ReadsWhatItChanges(remote, b) {
        ChangedAreCached(b, course);
      }
    }

    /** Pre-executes the block, gathers proofs before and after it, and adds the potential child nodes.
        The witness is made for what was cached after the execution, every changed slot included if
        the block reads what it changes. */
    method ToExecutionWitness(b: Block, number: nat)
      returns (w: ExecutionWitness, updates: Updates, ghost course: Course, ghost cached: Cache)
      requires Valid() && AsksKnownCode(b) && 0 < number
      modifies this
      ensures Valid() && Grown() && KeepsNotes()
      ensures Executes(remote, b, course) && AllNotedIn(NotesSoFar(), course) && updates == b.Changed(course)
      ensures |course| == b.limit || b.Next(course).None?
      ensures WitnessState(remote, cached, updates, w.state)
      ensures ReadsWhatItChanges(remote, b) ==> WantsChanged(cached, updates)
      ensures Extends(old(cache), cached) && cached.Keys == cache.Keys
      ensures CoversReads(remote, readAddresses, readSlots, w.keys) && CoversCodes(remote, readAddresses, w.codes)
      ensures ExactKeys(remote, cached, w.keys) && ExactCodes(remote, cached, w.codes)
      ensures HeadersFrom(readHashes, number, w.headers)
    {
      updates, course := StateTransitions(b);
      cached := cache;
      w := MakeWitness(updates, number);
    }

    method MakeWitness(updates: Updates, number: nat) returns (w: ExecutionWitness)
      requires Valid() && 0 < number
      modifies this`cache, this`childCache, this`codes, this`sent, this`now
      ensures Valid() && Grown() && cache.Keys == old(cache).Keys
      ensures WitnessState(remote, old(cache), updates, w.state)
      ensures CoversReads(remote, readAddresses, readSlots, w.keys) && CoversCodes(remote, readAddresses, w.codes)
      ensures ExactKeys(remote, old(cache), w.keys) && ExactCodes(remote, old(cache), w.codes)
      ensures HeadersFrom(readHashes, number, w.headers)
    {
      var nodes, keys, witnessCodes := GatherState(updates);
      var headers := HeaderNumbers(blockHashes.Keys, number);
      w := ExecutionWitness(nodes, keys, witnessCodes, headers);
    }
  }
}
