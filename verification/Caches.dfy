/** Caches of accounts: what it is for one to agree with the remote, and how answers are added. */
module Caches {
  import opened Lists
  import opened Rpc
  import opened Assembly
  import Pacing

  type Cache = map<Address, Account>

  /** Every entry is what the remote would answer for the slots the entry knows. */
  ghost predicate Coherent(r: Remote, s: ChainState, cache: Cache) {
    forall a :: a in cache ==> Fits(r, s, a, cache[a])
  }

  /** Answers to a list of requests; for a repeated address the last request counts. */
  function Answers(r: Remote, s: ChainState, index: Requests): (answers: Cache)
    ensures Coherent(r, s, answers)
    ensures forall a :: a in answers <==> exists i :: 0 <= i < |index| && index[i].0 == a
  {
    if index == [] then map[]
    else
      var last := index[|index| - 1];
      assert index == index[..|index| - 1] + [last];
      Answers(r, s, index[..|index| - 1])[last.0 := View(r, s, last.0, SlotSet(last.1))]
  }

  /** Adding answers to a cache: known entries are merged, new ones inserted. */
  function MergeAll(cache: Cache, fetched: Cache): (merged: Cache)
    ensures merged.Keys == cache.Keys + fetched.Keys
  {
    map a | a in cache.Keys + fetched.Keys :: Combined(cache, fetched, a)
  }

  /** An entry of the merged cache.  The case of an entry and an answer that disagree on whether the
      account exists does not arise between answers from one state. */
  function Combined(cache: Cache, fetched: Cache, a: Address): Account
    requires a in cache || a in fetched
  {
    if a !in cache then fetched[a]
    else if a !in fetched || cache[a].Existing? != fetched[a].Existing? then cache[a]
    else Merge(cache[a], fetched[a])
  }

  /** Nothing that the one cache knows has been forgotten in the other. */
  ghost predicate Extends(before: Cache, after: Cache) {
    before.Keys <= after.Keys && forall a :: a in before ==> before[a].storageProofs.Keys <= after[a].storageProofs.Keys
  }

  /** What has been read is still there. */
  ghost predicate Remembers(cache: Cache, addresses: set<Address>, slots: set<(Address, SlotKey)>) {
    addresses <= cache.Keys && forall p :: p in slots ==> p.0 in cache && p.1 in cache[p.0].storageProofs
  }

  lemma {:induction false} StillRemembers(before: Cache, after: Cache, addresses: set<Address>,
      slots: set<(Address, SlotKey)>)
    requires Remembers(before, addresses, slots) && Extends(before, after)
    ensures Remembers(after, addresses, slots)
  {
  }

  /** What has been asked for so far. */
  datatype Notes = Notes(
    addresses: set<Address>,
    slots: set<(Address, SlotKey)>,
    hashes: set<nat>,
    codes: set<CodeHash>)

  ghost predicate StillNoted(before: Notes, after: Notes) {
    && before.addresses <= after.addresses && before.slots <= after.slots
    && before.hashes <= after.hashes && before.codes <= after.codes
  }

  lemma {:induction false} NothingForgotten(first: Cache, second: Cache, third: Cache,
      before: Notes, between: Notes, after: Notes)
    requires Extends(first, second) && Extends(second, third)
    requires StillNoted(before, between) && StillNoted(between, after)
    ensures Extends(first, third) && StillNoted(before, after)
  {
  }

  /** Merging keeps a cache coherent and forgets nothing. */
  lemma {:induction false} MergeAllCoherent(r: Remote, s: ChainState, cache: Cache, fetched: Cache)
    requires Coherent(r, s, cache) && Coherent(r, s, fetched)
    ensures Coherent(r, s, MergeAll(cache, fetched))
    ensures Extends(cache, MergeAll(cache, fetched)) && Extends(fetched, MergeAll(cache, fetched))
  {
    forall a | a in MergeAll(cache, fetched)
      ensures Fits(r, s, a, MergeAll(cache, fetched)[a])
      ensures a in cache ==> cache[a].storageProofs.Keys <= MergeAll(cache, fetched)[a].storageProofs.Keys
      ensures a in fetched ==> fetched[a].storageProofs.Keys <= MergeAll(cache, fetched)[a].storageProofs.Keys
    {
      if a in cache && a in fetched {
        MergeViews(r, s, a, cache[a], fetched[a]);
      }
    }
  }

  /** Every code is filed under its own hash. */
  ghost predicate CodesFiled(codes: map<CodeHash, Bytes>) {
    forall h :: h in codes ==> KeccakCode(codes[h]) == h
  }

  ghost predicate CodesKnown(cache: Cache, codes: map<CodeHash, Bytes>) {
    forall a :: a in cache && cache[a].Existing? && cache[a].code.Some? ==> KeccakCode(cache[a].code.value) in codes
  }

  /** Value a read must give, whatever has been cached. */
  function RemoteSlot(r: Remote, a: Address, k: SlotKey): Word {
    if Exists(r, r.pre, a) then r.pre.slot(a, k) else 0
  }

  function RemoteState(r: Remote, a: Address): AccountState {
    if Exists(r, r.pre, a) then r.pre.info(a) else DefaultState()
  }

  lemma {:induction false} MergeIntoEmpty(fetched: Cache)
    ensures MergeAll(map[], fetched) == fetched
  {
  }

  function StateOf(account: Account): AccountState {
    if account.Existing? then account.state else DefaultState()
  }

  lemma {:induction false} CachedState(r: Remote, a: Address, account: Account, codes: map<CodeHash, Bytes>)
    requires HonestState(r, r.pre) && Fits(r, r.pre, a, account)
    requires account.Existing? && account.code.Some? ==> KeccakCode(account.code.value) in codes
    ensures StateOf(account) == RemoteState(r, a)
    ensures StateOf(account).codeHash in codes || StateOf(account).codeHash == EmptyCodeHash()
  {
  }

  lemma {:induction false} AnswersOne(r: Remote, s: ChainState, a: Address, keys: seq<SlotKey>)
    ensures Answers(r, s, [(a, keys)]) == map[a := View(r, s, a, SlotSet(keys))]
  {
    AnswersLast(r, s, [], (a, keys));
    assert [] + [(a, keys)] == [(a, keys)];
  }

  /** Both answers come from one state, so an account known to exist never meets an answer that it
      does not, nor the other way round. */
  method MergeEntry(ghost r: Remote, ghost s: ChainState, ghost a: Address, cached: Account, fetched: Account)
    returns (merged: Account)
    requires Fits(r, s, a, cached) && Fits(r, s, a, fetched)
    ensures cached.Existing? == fetched.Existing? && merged == Merge(cached, fetched)
  {
    MergeViews(r, s, a, cached, fetched);
    match (fetched, cached) {
      case (Existing(_, storage, _, storageProofs, _), Existing(state, storageAcc, proof, storageProofsAcc, code)) =>
        merged := Existing(state, storageAcc + storage, proof, storageProofsAcc + storageProofs, code);
      case (NonExisting(_, storageProofs), NonExisting(proof, storageProofsAcc)) =>
        merged := NonExisting(proof, storageProofsAcc + storageProofs);
      case _ =>
        assert false;
    }
  }

  /** Merges answers into a cache entry by entry. */
  method MergeInto(ghost r: Remote, ghost s: ChainState, cache: Cache, fetched: Cache) returns (merged: Cache)
    requires Coherent(r, s, cache) && Coherent(r, s, fetched)
    ensures merged == MergeAll(cache, fetched)
  {
    merged := cache;
    var pending := fetched.Keys;
    MergeNone(cache, fetched);
    while pending != {}
      invariant pending <= fetched.Keys && merged == MergeAll(cache, fetched - pending)
      decreases pending
    {
      var a :| a in pending;
      MergeOneMore(cache, fetched, pending, a);
      if a in merged {
        var entry := MergeEntry(r, s, a, merged[a], fetched[a]);
        merged := merged[a := entry];
      } else {
        merged := merged[a := fetched[a]];
      }
      pending := pending - {a};
    }
    assert fetched - {} == fetched;
  }

  lemma {:induction false} MergeNone(cache: Cache, fetched: Cache)
    ensures MergeAll(cache, fetched - fetched.Keys) == cache
  {
  }

  lemma {:induction false} MergeOneMore(cache: Cache, fetched: Cache, pending: set<Address>, a: Address)
    requires pending <= fetched.Keys && a in pending
    ensures a in MergeAll(cache, fetched - pending) <==> a in cache
    ensures a in cache ==> MergeAll(cache, fetched - pending)[a] == cache[a]
    ensures MergeAll(cache, fetched - (pending - {a})) ==
            MergeAll(cache, fetched - pending)[a := Combined(cache, fetched, a)]
  {
  }

  lemma {:induction false} MergedCodes(cache: Cache, fetched: Cache, codes: map<CodeHash, Bytes>)
    requires CodesKnown(cache, codes) && CodesKnown(fetched, codes)
    ensures CodesKnown(MergeAll(cache, fetched), codes)
  {
    forall a | a in MergeAll(cache, fetched)
      ensures var m := MergeAll(cache, fetched)[a];
              m.Existing? && m.code.Some? ==> KeccakCode(m.code.value) in codes
    {
      var m := Combined(cache, fetched, a);
      assert m.Existing? ==> m.code == (if a in cache then cache[a].code else fetched[a].code);
    }
  }

  /** One batch for each chunk, of the chunk's size. */
  ghost predicate SentAs<T>(batches: seq<Pacing.Batch>, chunks: seq<seq<T>>) {
    |batches| == |chunks| && forall i :: 0 <= i < |chunks| ==> batches[i].size == |chunks[i]|
  }

  lemma {:induction false} SentOneMore<T>(before: seq<Pacing.Batch>, sent: seq<Pacing.Batch>,
      chunks: seq<seq<T>>, i: nat)
    requires i < |chunks| && |before| < |sent| && SentAs(sent[|before|..|sent| - 1], chunks[..i])
    requires sent[|sent| - 1].size == |chunks[i]|
    ensures SentAs(sent[|before|..], chunks[..i + 1])
  {
    assert sent[|before|..] == sent[|before|..|sent| - 1] + [sent[|sent| - 1]];
  }

  lemma {:induction false} AnswersOfChunk(r: Remote, s: ChainState, chunks: seq<Requests>, i: nat)
    requires i < |chunks|
    ensures Answers(r, s, Pacing.Concat(chunks[..i + 1])) ==
            Answers(r, s, Pacing.Concat(chunks[..i])) + Answers(r, s, chunks[i])
  {
    assert chunks[..i + 1] == chunks[..i] + [chunks[i]];
    Pacing.ConcatAppend(chunks[..i], chunks[i]);
    AnswersAppend(r, s, Pacing.Concat(chunks[..i]), chunks[i]);
  }

  lemma {:induction false} AnswersLast(r: Remote, s: ChainState, index: Requests, last: (Address, seq<SlotKey>))
    ensures Answers(r, s, index + [last]) == Answers(r, s, index)[last.0 := View(r, s, last.0, SlotSet(last.1))]
  {
    assert (index + [last])[..|index|] == index;
  }

  lemma {:induction false} AnswersAppendOne(r: Remote, s: ChainState, index: Requests, init: Requests,
      last: (Address, seq<SlotKey>))
    requires Answers(r, s, index + init) == Answers(r, s, index) + Answers(r, s, init)
    ensures Answers(r, s, (index + init) + [last]) == Answers(r, s, index) + Answers(r, s, init + [last])
  {
    AnswersLast(r, s, index + init, last);
    AnswersLast(r, s, init, last);
    MapAppend(Answers(r, s, index), Answers(r, s, init), last.0, View(r, s, last.0, SlotSet(last.1)));
  }

  lemma {:induction false} AnswersAppend(r: Remote, s: ChainState, index: Requests, more: Requests)
    ensures Answers(r, s, index + more) == Answers(r, s, index) + Answers(r, s, more)
    decreases |more|
  {
    if more == [] {
      assert index + more == index;
    } else {
      var init, last := more[..|more| - 1], more[|more| - 1];
      AnswersAppend(r, s, index, init);
      AnswersAppendOne(r, s, index, init, last);
      SplitLast(index, more);
    }
  }

  lemma {:induction false} MapAppend<K, V>(m: map<K, V>, n: map<K, V>, k: K, v: V)
    ensures m + n[k := v] == (m + n)[k := v]
  {
  }
}
