# Verified model of ethrex-replay

ethrex-replay re-executes Ethereum blocks without a full node.  This project models, in Dafny 4.11,
the parts of it whose correctness is not apparent from any one function, and proves what they are
relied on for.

1. **The partial-trie witness** (`Trie`, `TrieLaws`, `PartialTrie`, `PartialTrieLaws`, `Witness`,
   `Batch`, `Contents`, `FinalProofs`, `Refill`).  When a node offers only `eth_getProof`, the execution witness is
   built from proofs of the touched keys before and after the block.  A deletion may collapse a branch onto a
   child that was never read, so the tool adds every node that this child could be.  `Trie` is the
   modified Merkle Patricia trie of Appendix D of the Ethereum Yellow Paper; `PartialTrie` repeats
   its operations over a store that holds only some nodes.
2. **The database that reads through to the node** (`Rpc`, `Pacing`, `Caches`, `Assembly`,
   `Execution`, `Gathering`, `RpcDb`, `EndToEnd`): its caches agree with the
   remote state, remember everything that was read, and give a witness on which the block replays.
3. **The job queue of the web front end** (`JobSystem`, `JobInvariants`, `JobProgress`,
   `JobFailures`, `JobOutcomes`, `JobRace`, `JobHost`): one queue process, one server process for
   each job, a job table and one shared `Cargo.toml`, as a transition system with mailboxes and
   arbitrary interleaving.  `JobHost` has the callbacks as methods, each tied to the actions it
   consists of.
4. **Loops with exact specifications**: the streaming log splitter (`JobLog`), the replay loop
   (`ReplayLoop`), cache file names (`CacheNames`), dummy nodes (`Dummies`) and the
   block-composition counters (`Composition`).

`Options`, `Lists` and `MapSum` hold optional values and facts about lists and about sums over maps.
`dafny verify dfyconfig.toml` checks everything.

## Results that correct the documentation

- The comment at `src/rpc/db.rs:585-591` says that with the final proof of exclusion all possible
  child nodes can be calculated.  For one deletion this is so exactly if the child is not a branch
  (`Witness.CollapseCompleteness`); `docs/faq.md:25-27` admits the branch case.
- Over a whole block it also fails, for leaves, when the collapsed branch gets a new key in the same
  block, because the final proof then no longer shows the child (`Refill.RefillLosesSibling`, a family
  of blocks for keys of any length; `Refill.RefillLosesLongLeaf` for those of the real tries).
  `Batch.WitnessDecides` gives the exact condition for all blocks whose collapses can still be seen at
  the end, which a caller can ensure by putting first and deleting afterwards
  (`Batch.PutsFirstDecides`).  `Batch.WitnessReplayExactly` says for all blocks whatever when the
  replay ends, and `Contents.ReplayLeaves` that with any nodes at hand it never ends with a wrong root.
- The limitation that `docs/faq.md:25-27` admits can be detected before the replay from the witness's own
  data: a deletion has collapsed a branch onto a branch exactly if the deleted key's final proof leaves
  an extension at its last nibble, and then the proof names the missing node
  (`FinalProofs.BranchSiblingShows`).  If no final proof does so over a node that the witness lacks, the
  block replays (`FinalProofs.PutsFirstReplays`, `EndToEnd.AccountUpdatesSurelyReplay`,
  `EndToEnd.StorageUpdatesSurelyReplay`); conversely, after a complete replay none does so over a node
  that is neither in the witness nor built by the block (`FinalProofs.EndHidesNothing`).
- Restoring `Cargo.toml` a second time in `terminate` never writes anything but the shipped text
  (`JobInvariants.ServerKeepsToml`), but it can take away the next job's override while that job's
  command is at work (`JobRace.OverrideCanBeLost`): exactly if that restore is still to come when the
  override is written (`JobRace.WriteDecides`).
- If a command ends while the job's cancellation or timeout is waiting to be handled, the handler
  closes a port that is closed already and raises, and `terminate` does so again before its restore.
  The queue is then stuck for good, and so is `Cargo.toml` unless an earlier server still puts it back
  (`JobRace.CancelAfterExit`, `JobFailures.DoomedExactly`, `JobFailures.FileLeftExactly`).
- After a server has stopped on one of the paths that do not announce it (these, and those at
  `job_server.ex:109-120`), the queue never launches a job again (`JobFailures.StuckForever`).

## How the model stands for the code

- The trie library that the tool uses, ethrex_trie, is not part of the repository; `Trie` follows the
  Yellow Paper.
- A hash is a free constructor (`Keccak`, `KeccakCode`), hence injective.  A node is its structure, not
  its RLP bytes.  Keys have one length, so a branch holds no value.
- The remote is a fixed pair of states, before and after the block.  It serves well-formed tries, and
  what it says about accounts and slots is what its tries hold, under injective encodings.
- A block is executed as a course of questions to the database, each an arbitrary function of the
  answers before it (`Execution`).  It is taken to ask only for code of accounts it has read.  That it reads
  every account it changes, and every slot it changes of an account that existed, is a hypothesis only
  where the witness is said to cover what the block changes.
- Time is a number that only grows; the time that requests take, and any idle time after them, is
  arbitrary.
- In the job system an action is an uninterrupted step of one process.  A callback that does several
  observable things is several actions, between which other processes act.  The override of
  `Cargo.toml` is an arbitrary function of its text and the branch.  Reading and writing `Cargo.toml`
  are one step each: that a write first empties the file, so that another server could read it empty
  or in part, is not modelled.
- Closing a port that is not open raises, as it does in Erlang.
- Every lemma carries `{:induction false}`: all inductions are spelled out.

## Model

| member | source | states |
|---|---|---|
| `TrieLaws.GetAfterRemove` | src/rpc/db.rs:582-586 | Deleting a key from a well-formed trie keeps it well-formed (no branch with one child, no extension onto a leaf or extension), forgets exactly that key and changes no other |
| `TrieLaws.GetAfterInsert` | src/rpc/db.rs:329-332 | Inserting or updating binds exactly the given key, changes no other, and keeps the trie well-formed |
| `TrieLaws.Canonical` | src/rpc/db.rs:582-588 | Two well-formed tries that answer every key alike are the same trie, so the root after a block depends on the contents alone |
| `TrieLaws.SameBelow` | src/rpc/db.rs:582-588 | What lies below a position of a well-formed trie depends only on the keys under that position |
| `TrieLaws.RemoveByChild` | src/rpc/db.rs:584-586 | Removal acts below the key's first nibble as removal one nibble further down, leaves every other nibble alone, and collapses to what remains |
| `PartialTrie.LookupWithProof` | src/rpc/db.rs:593-607 | Looking a key up over any store that holds the key's own proof gives the answer of the complete trie, present or absent |
| `PartialTrie.LookupIsRight` | src/rpc/db.rs:593-607 | With any nodes at hand a lookup that comes to an end gives the complete trie's answer, and one that does not misses a node of the key's proof |
| `PartialTrie.LookupExactly` | src/rpc/db.rs:593-607 | A lookup comes to an end if and only if the whole proof below its first node is at hand: a proof has all that is needed and nothing else |
| `PartialTrieLaws.RemovalRefines` | src/rpc/db.rs:585-588 | Over a store with the key's own proof, deletion from the partial trie yields the complete trie's result with exactly the new proof's nodes built if the collapse's sibling is in the store or there is no collapse, and otherwise reports that sibling's digest |
| `PartialTrieLaws.InsertionRefines` | src/rpc/db.rs:585-588 | Over a store with the key's own proof, insertion never misses a node and yields the complete trie's result, its new proof and the node split off |
| `PartialTrieLaws.RemovalIsRight` | src/rpc/db.rs:585-588 | With any nodes at hand, a deletion that gets through has done what it does on the complete trie |
| `PartialTrieLaws.InsertionIsRight` | src/rpc/db.rs:585-588 | So has an insertion or update |
| `PartialTrieLaws.ProofAfterRemove` | src/rpc/db.rs:381-394 | After a deletion every node of another key's proof was in its proof before or is a node of the deleted key's new proof |
| `PartialTrieLaws.ProofAfterInsert` | src/rpc/db.rs:381-394 | After an insertion every node of another key's proof was in its proof before, is a node of the inserted key's new proof, or is the node split off |
| `Witness.Suffixes` | src/rpc/db.rs:608-626 | The variants of a leaf or extension are exactly the nodes with its value or child and a suffix of its path |
| `Witness.NodesByHash` | src/rpc/db.rs:593-597 | Filing a proof's nodes under their hashes gives a table that knows a digest exactly if its node is in the proof |
| `Witness.ExtensionVariants` | src/rpc/db.rs:609-616 | The loop that pops an extension's prefix lists every suffix, longest first, the empty one included |
| `Witness.LeafVariants` | src/rpc/db.rs:617-626 | The loop that pops a leaf's partial path down to its flag lists every suffix with the flag kept, longest first |
| `Witness.GetPotentialChildNodes` | src/rpc/db.rs:592-634 | Nothing for an empty proof, a proof of presence, a lookup that misses a node, or a proof that ends in a branch; otherwise all variants of the last node |
| `Witness.CollapsePosition` | src/rpc/db.rs:584-588 | A deletion that leaves a branch with one child does so on the deleted key's own path, and afterwards only that child, prefixed with its slot's nibble, is left at the position |
| `Witness.CollapseExactly` | src/rpc/db.rs:584-588 | A position and a child are the collapse of a deletion if and only if there is a branch on the key's way there, the child lies under another nibble, and after the deletion only the child, prefixed with that nibble, is left |
| `Witness.ChildOnProof` | src/rpc/db.rs:381-394 | A child of a branch is on the proof of every key that passes through it |
| `Witness.ExclusionShows` | src/rpc/db.rs:588-590 | If all there is below a position on the key's way is one leaf or extension under another nibble, the key is absent and its proof ends in a node that continues with that leaf or extension |
| `Witness.SiblingAmongPotential` | src/rpc/db.rs:585-607 | In whatever trie the block leaves, if only the sibling is left where the branch collapsed and it is a leaf or extension, the deleted key's exclusion proof yields the sibling with its exact path, value or child |
| `Witness.PotentialExactly` | src/rpc/db.rs:592-634 | The potential child nodes of a key are exactly the shortened forms of the last node of its proof of absence, none if the key is present or the proof ends in a branch |
| `Witness.CollapseCompleteness` | src/rpc/db.rs:582-634 | For every trie and every deletion that collapses a branch, merged into a parent extension or not: the remaining child is among the variants computed from the exclusion proof after the deletion if and only if it is not a branch |
| `Batch.StepRefines` | src/rpc/db.rs:381-394 | One deletion, insertion or update over a store with the key's proof does what it does on the complete trie, or stops at the sibling of its collapse, exactly if that sibling is missing |
| `Batch.StepKeepsHolding` | src/rpc/db.rs:381-394 | If the proofs of all touched keys are at hand before an operation, they are at hand after it together with the nodes it builds |
| `Batch.LoneSiblingStays` | docs/faq.md:18-27 | What lies alone at a collapsed position is still there, unchanged, at the end of the block if no later operation touches it or adds a key beside it |
| `Batch.CollapseIsAtHand` | src/rpc/db.rs:381-394 | In a batch without unknown branch siblings, a collapse that can still be seen at the end of the batch finds its sibling in the store |
| `Batch.WitnessDecides` | src/rpc/db.rs:329-332 | Main theorem. For every batch of deletions, insertions and updates whose first collapse onto an unknown leaf or extension, if any, can still be seen in the trie that the batch leaves, over any store with the touched keys' initial proofs and the potential child nodes of their final proofs: the replay runs to its end if and only if no collapse runs onto an unknown branch, and then its root is that of the complete post-state trie |
| `Batch.ReplayIsExact` | src/rpc/db.rs:447-474 | With the initial proofs of the touched keys, whatever else is missing and whatever the batch does: a replay runs to its end if and only if every collapse has its sibling among the nodes at hand by then, and then its root is that of the complete post-state trie |
| `Contents.BatchLeaves` | src/rpc/db.rs:329-332 | Whatever a block writes and deletes, under every key the trie then holds the value written last, nothing if the key was deleted last, and what it held before if no write is on the key |
| `Contents.LeavesExactly` | src/rpc/db.rs:329-332 | A trie is the post-state of a block if and only if it is well-formed and holds under every key what the block's writes leave there |
| `Contents.ReplayLeaves` | src/rpc/db.rs:447-474 | A replay never goes wrong: with any nodes at hand and any batch, the trie under the root it ends with is well-formed and holds under every key what was written last |
| `Contents.ReplayCanBeRead` | src/rpc/db.rs:447-474 | After a replay that had the proofs of the touched keys, looking any of them up in what it leaves finds what was written last under it |
| `Contents.BuiltIsInTrie` | src/rpc/db.rs:585-588 | An operation adds no node that is not a node of the trie it leaves |
| `Batch.WitnessHasSiblings` | src/rpc/db.rs:381-394 | With the potential child nodes added and the collapses seen at the end, every collapse has its sibling at hand if and only if none runs onto an unknown branch |
| `Batch.NoRefillIsVisible` | docs/faq.md:18-27 | A batch that adds no key at a collapsed position afterwards shows its collapses at the end, those onto branches included; a position that is refilled and emptied again may show them too |
| `Batch.PutsFirstDecides` | src/rpc/db.rs:329-332 | For every batch with its insertions and updates before its deletions, which a caller can see from the list alone, the equivalence holds with no other condition |
| `Batch.DeletionsAndUpdates` | src/rpc/db.rs:381-394 | For batches of deletions and value updates the same equivalence holds, in any order |
| `Batch.WitnessReplayExactly` | src/rpc/db.rs:381-394 | For every batch whatever, on exactly its own witness: the replay runs to its end if and only if every collapse's sibling is on an initial proof of a touched key, or is a shortened form of the last node of a touched key's final proof of absence, or was built by the batch before |
| `Batch.WitnessNodesExactly` | src/rpc/db.rs:447-474 | The witness holds a node if and only if it is on an initial proof of a touched key or a shortened form of the last node of a touched key's final proof of absence |
| `Batch.WitnessNodesCarry` | src/rpc/db.rs:447-474 | The initial proofs and potential child nodes of the touched keys, and no other nodes, make a store for which the theorem holds |
| `FinalProofs.BranchSiblingShows` | docs/faq.md:25-27 | The admitted limitation can be read off the final proof: for every deletion that collapses a branch, the remaining child is a branch, and so not among the potential child nodes, if and only if the deleted key's proof afterwards ends in an extension that the key follows on every nibble but the last; and then that extension names the missing child |
| `FinalProofs.StopIsHidden` | src/rpc/db.rs:381-394 | If a replay on a witness stops and its collapses can be seen at the end, then the final proof of some touched key that was present before leaves in this way over the very node at which the replay stops, and the witness lacks it |
| `FinalProofs.NoneHiddenReplays` | src/rpc/db.rs:329-332 | If no touched key's final proof leaves in this way over a node that the witness lacks, a batch whose collapses can be seen at the end replays to the right root |
| `FinalProofs.PutsFirstReplays` | src/rpc/db.rs:329-332 | So does every batch with its insertions and updates before its deletions: a condition on the list of updates, the final proofs and the witness alone |
| `FinalProofs.EndHidesNothing` | src/rpc/db.rs:381-394 | The other half, for every batch: if the replay runs to its end, no key that was present at some time leaves in this way over a node that is neither in the witness nor built by the batch |
| `FinalProofs.HiddenDecides` | src/rpc/db.rs:381-394 | Both halves together, for batches whose collapses can be seen at the end |
| `FinalProofs.ExitAfterRemove` | src/rpc/db.rs:584-588 | After a deletion any other key's proof leaves at the last nibble only where it did before, or over the sibling of the collapse, or over a node of the deleted key's new proof |
| `FinalProofs.ExitAfterInsert` | src/rpc/db.rs:584-588 | After an insertion any other key's proof leaves at the last nibble only where it did before, or over a node of the inserted key's new proof |
| `Refill.RefillLosesSibling` | src/rpc/db.rs:585-591 | Where the claim fails, for keys of any length: for every branch over two different leaves that loses one of them and then gains a third key in the same block, the replay on its witness stops at the leaf left over, which no proof and no variant contains |
| `Refill.RefillLosesLongLeaf` | src/rpc/db.rs:585-591 | The same for the 64-nibble keys of account and storage tries, where the lost leaf has a path of 63 nibbles and so is never embedded in its parent |
| `Rpc.PresenceIsExact` | src/rpc/mod.rs:148-166 | Deciding from an account proof whether the account exists gives the trie's own answer |
| `Rpc.LookupMonotone` | src/rpc/mod.rs:159-166 | A lookup that succeeds over few nodes gives the same answer over more |
| `Rpc.View` | src/rpc/mod.rs:29-43 | An answer about an account knows exactly the slots asked for and says that the account exists exactly if it does |
| `Rpc.MergeViews` | src/rpc/db.rs:218-296 | Two answers from one state agree on existence, and their merge is the answer to both requests together |
| `Pacing.RateBound` | src/rpc/db.rs:35-42 | In any window of time, over any number of fetch calls, the account fetches started times the rate limit are at most the window's length and one full batch's cooldown |
| `Pacing.WindowBound` | src/rpc/db.rs:35-42 | In any window of length T at most RPS + T / RATE_LIMIT account fetches are started |
| `Pacing.RateLimitRounds` | src/rpc/db.rs:41-42 | The rate limit is the second divided by RPS and rounded down, so it is zero exactly for more than a million requests a second |
| `Pacing.SecondBound` | src/rpc/db.rs:35-42 | For up to a thousand requests a second no second sees more than twice RPS account fetches started |
| `Pacing.ChunksConcat` | src/rpc/db.rs:168-194 | The chunks concatenate to the requested list; none is empty, and all but the last are of exactly the limit's size |
| `Pacing.PacedAppend` | src/rpc/db.rs:204-212 | A batch that is waited for as the cooldown demands keeps the pace |
| `Caches.MergeAllCoherent` | src/rpc/db.rs:214-296 | Merging answers into a cache keeps every entry what the remote would answer for the slots it knows, and forgets no account and no slot |
| `Caches.MergeEntry` | src/rpc/db.rs:249-277 | The merge of a cached entry and a fetched one never meets an existing and a non-existing variant, and holds what both hold |
| `Caches.MergeInto` | src/rpc/db.rs:218-280 | The merge loop adds every fetched account to the cache, merging those already there and touching no other |
| `Gathering.Dedup` | src/rpc/db.rs:122-134 | One request for each address named, with all the slots named for it and no others |
| `Gathering.AnswersToNamed` | src/rpc/db.rs:122-135 | The answers to these requests are for exactly the named addresses and know exactly the slots named |
| `Gathering.NamedExactly` | src/rpc/db.rs:115-125 | The requests name an address or slot if and only if some transaction does, as its sender, its recipient or in its access list |
| `RpcDb.RpcDB.constructor` | src/rpc/db.rs:70-87 | A new database has cached and read nothing, and is valid |
| `RpcDb.RpcDB.GetAccount` | src/rpc/mod.rs:77-195 | The account is what the remote's state says: existence from the proof, values and proofs of the slots asked for, code from the code cache or fetched and filed under its hash |
| `RpcDb.RpcDB.FetchInChunks` | src/rpc/db.rs:165-212 | The chunk loop answers the whole list from one state, sends one batch for each chunk, and keeps the pace |
| `RpcDb.RpcDB.EverySecond` | src/rpc/db.rs:35-42 | Whatever has been called on a database, no second has seen more than twice RPS account fetches started, for RPS up to a thousand |
| `RpcDb.RpcDB.FetchAccounts` | src/rpc/db.rs:154-311 | Returns the remote's answers, merges them into the cache of the state they come from and leaves the other cache alone, and files the codes |
| `RpcDb.RpcDB.FileCodes` | src/rpc/db.rs:297-308 | Every fetched code ends up filed under its own hash and no code is lost |
| `RpcDb.RpcDB.CachedAccount` | src/rpc/db.rs:504-518 | What is returned is what the cache holds afterwards, fetched first if need be, and nothing known before is forgotten by the second insert |
| `RpcDb.RpcDB.GetAccountState` | src/rpc/db.rs:504-535 | Gives the remote pre-state's account, and nonce, balance, storage and code of nothing if it does not exist; the address is cached from then on and its code can be looked up |
| `RpcDb.RpcDB.GetStorageValue` | src/rpc/db.rs:537-562 | Gives the remote pre-state's value, zero for an absent account, whether it was cached or not; the slot is cached from then on |
| `RpcDb.RpcDB.GetAccountCode` | src/rpc/db.rs:486-495 | Fails exactly for a non-empty code that is not filed; never for a code hash that an account read has returned; what it returns has the hash asked for |
| `RpcDb.RpcDB.GetBlockHash` | src/rpc/db.rs:564-578 | Gives the remote's hash of the block and remembers its number |
| `RpcDb.RpcDB.CacheAccounts` | src/rpc/db.rs:112-138 | Caches an address if and only if some transaction has it as sender, recipient or in its access list, each with exactly the slots that the access lists give for it |
| `RpcDb.RpcDB.BuildIndex` | src/rpc/db.rs:341-360 | Lists every cached address once: an existing account with its cached slots, another one with the slots that the block adds to it |
| `RpcDb.RpcDB.PreExecute` | src/rpc/db.rs:332-334 | Executing a block over the database asks, question by question, what the block asks next, gets the complete pre-state's answers, and goes on to the block's end; everything it reads is noted and cached |
| `Execution.OneExecution` | src/rpc/db.rs:332-334 | There is only one such course, so it is the one that the block takes on the complete pre-state |
| `RpcDb.RpcDB.ToExecutionWitness` | src/rpc/db.rs:329-482 | After pre-executing the block to its end, the witness's nodes are exactly those called for by the addresses and slots cached by then, every slot that the block changes among them if it reads what it changes; its keys and codes are exactly those of the existing cached accounts and their cached slots; its headers run from the oldest block whose hash was read up to the parent |
| `Gathering.ReadsAreWanted` | src/rpc/db.rs:341-360 | If every changed account, and every changed slot of an account that existed, has been read, the index asks for every slot that the block changes |
| `Gathering.WantedExactly` | src/rpc/db.rs:341-360 | A slot of a cached account is asked for if and only if it is cached, for an account that exists before the block, or the block adds it, for one that does not |
| `Assembly.DedupedKeepsAll` | src/rpc/db.rs:447-474 | For proofs from one trie, one copy of the root and every proof without its first node hold exactly the nodes of all the proofs |
| `Assembly.CollectStorageNodes` | src/rpc/db.rs:465-473 | For each account one storage root and its proofs without their first nodes, in order |
| `Assembly.Assemble` | src/rpc/db.rs:381-394 | Account nodes, potential account nodes, storage nodes and potential storage nodes, one after the other |
| `Assembly.AssembledExactly` | src/rpc/db.rs:362-474 | The assembled list holds a node if and only if it is in an initial account or storage proof of the index or among the potential child nodes of a final one |
| `Gathering.IndexedWitness` | src/rpc/db.rs:341-474 | Assembled from the index of a cache, the witness holds exactly the nodes that the cached addresses and slots call for |
| `Gathering.KeysCoverCache` | src/rpc/db.rs:407-423 | The keys cover every existing cached account and each of its cached slots |
| `Gathering.CodesCoverAddresses` | src/rpc/db.rs:396-411 | The codes cover every existing account of the index, an empty code where there is none |
| `Gathering.KeysExactly` | src/rpc/db.rs:412-423 | The keys are exactly the existing cached accounts and their cached slots |
| `Gathering.CodesExactly` | src/rpc/db.rs:409-411 | The codes are exactly those of the existing cached accounts |
| `Gathering.HeaderNumbers` | src/rpc/db.rs:425-445 | The headers are consecutive and reach from the oldest block whose hash was read up to the parent; the parent's alone if no hash was read |
| `Batch.ReplayDecided` | src/rpc/db.rs:329-332 | For all batches, with no condition: the replay on a store that carries the witness ends if and only if every collapse has its sibling at hand; if the collapses can be seen at the end, if and only if none runs onto an unknown branch; and then with the right root |
| `EndToEnd.AccountWritesSuffice` | src/rpc/db.rs:329-334 | Writes of accounts in any order, each with what the post-state has for its account, leave the post-state's contents if every account that changes is among them |
| `EndToEnd.SlotWritesSuffice` | src/rpc/db.rs:329-334 | The same for the slots of an account, a word of zero being deleted |
| `EndToEnd.AccountUpdatesReplay` | src/rpc/db.rs:329-474 | Any deletions, insertions and updates of cached accounts that leave the post-state's contents replay on the witness made from the cache if and only if every collapse has its sibling at hand, which, if collapses can be seen at the end, is if none runs onto an unknown branch; and then up to the remote's post-state root |
| `EndToEnd.AccountUpdatesSurelyReplay` | src/rpc/db.rs:329-474 | If no final account proof hides a branch from the witness, account updates with the deletions last replay to the post-state root |
| `EndToEnd.StorageUpdatesReplay` | src/rpc/db.rs:329-474 | So do the storage updates of every cached account, over the slots that the witness was made for |
| `EndToEnd.StorageUpdatesSurelyReplay` | src/rpc/db.rs:329-474 | If no final proof of a wanted slot hides a branch from the witness, storage updates with the deletions last replay to the account's post-state storage root |
| `EndToEnd.AccountCommitsToStorage` | src/rpc/db.rs:329-474 | The trie whose root the account replay ends with holds, for every account of the post-state, an encoding that commits to the storage root which the replay of that account's storage ends with |
| `EndToEnd.AccountReadsReplay` | src/rpc/db.rs:504-535 | Looking any cached account up in the witness finds the encoding of the account that the database returns for it, and of no other, or nothing if it does not exist |
| `EndToEnd.SlotReadsReplay` | src/rpc/db.rs:537-562 | Looking a slot up in the witness below the storage root of the returned account finds the encoding of the word that the database returns for it, and of no other, or nothing if it is zero |
| `JobInvariants.StepKeepsInv` | ethrex_replay_web/lib/ethrex_replay_web/jobs/job_server.ex:60-260 | Every step of the queue or of a server keeps the invariant: one active server, safe Cargo.toml, no lost wake-up, launch order |
| `JobInvariants.RunKeepsInv` | ethrex_replay_web/lib/ethrex_replay_web/jobs/job_queue.ex:63-185 | So does every run, in every interleaving |
| `JobInvariants.MutualExclusion` | ethrex_replay_web/lib/ethrex_replay_web/jobs/job_queue.ex:129-172 | In every reachable state a job that is marked running or has an open port is the one job that the queue is committed to |
| `JobInvariants.OneAtATime` | ethrex_replay_web/lib/ethrex_replay_web/jobs/job_queue.ex:129-172 | In no reachable state are two jobs marked running or with open ports |
| `JobInvariants.ServerKeepsToml` | ethrex_replay_web/lib/ethrex_replay_web/jobs/job_server.ex:426-481 | A server's step leaves Cargo.toml alone, or writes the shipped text, or, when the committed job's override is applied, replaces the shipped text by that override; the file stays safe in each case, the last restore after the announcement included |
| `JobInvariants.CargoTomlRestored` | ethrex_replay_web/lib/ethrex_replay_web/jobs/job_server.ex:249-260 | In every reachable state every text saved for restoring is the shipped one, and the file is the shipped one or the committed job's override of it, the latter only while that job's server is between override and first restore or has died of closing a closed port |
| `JobInvariants.NoLostWakeUp` | ethrex_replay_web/lib/ethrex_replay_web/jobs/job_queue.ex:129-185 | In every reachable state a committed job has a server at work, a finish message on the way or a silent stop behind it (death by closing a closed port included), and if none is committed while a job waits, a queue check is on the way |
| `JobInvariants.LaunchedOnceInOrder` | ethrex_replay_web/lib/ethrex_replay_web/jobs.ex:75-81 | Every job is launched at most once, and jobs are launched in order of insertion |
| `JobInvariants.TerminalIsFinal` | ethrex_replay_web/lib/ethrex_replay_web/jobs.ex:97-125 | A completed, failed or cancelled job's row never changes again, in any run |
| `JobOutcomes.RowsTellTrue` | ethrex_replay_web/lib/ethrex_replay_web/jobs/job_server.ex:140-246 | In every state of every run a completed job's command has exited with status zero, a cancelled job was cancelled by a client, a failed one could not be started or built or ended with another status, a dead port or a timeout, and a running one was started by its server |
| `JobOutcomes.FirstMessageDecides` | ethrex_replay_web/lib/ethrex_replay_web/jobs/job_server.ex:140-246 | The message that a running job's server comes to first decides, whatever arrives later: if the job is ever finished, it is completed for exit status zero, failed for any other, a dead port or a timeout, and cancelled for a cancellation |
| `JobProgress.InternalStepShrinks` | ethrex_replay_web/lib/ethrex_replay_web/jobs/job_queue.ex:129-185 | Every step that no client asks for makes a natural-number measure smaller |
| `JobProgress.InternalRunsEnd` | ethrex_replay_web/lib/ethrex_replay_web/jobs/job_queue.ex:129-185 | Between client calls a run is no longer than the measure it starts with |
| `JobProgress.ProgressPossible` | ethrex_replay_web/lib/ethrex_replay_web/jobs/job_queue.ex:129-172 | While a job is unfinished and no server has stopped silently or is bound to, some process has a step to take that does not lead to a silent stop |
| `JobProgress.Drains` | ethrex_replay_web/lib/ethrex_replay_web/jobs/job_queue.ex:129-172 | From every such state the processes can finish all jobs by themselves without a silent stop, within the measure |
| `JobProgress.RestsOnlyWhenFinished` | ethrex_replay_web/lib/ethrex_replay_web/jobs/job_queue.ex:129-172 | In every interleaving without silent stops (no failed start, no command ending before its cancellation or timeout is handled), whatever clients do, the processes come to rest only when every job is finished |
| `JobFailures.StuckExactly` | ethrex_replay_web/lib/ethrex_replay_web/jobs/job_server.ex:109-120 | A step leaves the queue committed to a job with no server and no end on the way if and only if it is the end of a silent path: the start could not be noted, no command could be built, or a cancellation or timeout is handled after the port has closed |
| `JobFailures.StuckIsSilent` | ethrex_replay_web/lib/ethrex_replay_web/jobs/job_queue.ex:129-172 | In reachable states the queue is stuck on a job exactly if its server has stopped silently |
| `JobFailures.StuckForever` | ethrex_replay_web/lib/ethrex_replay_web/jobs/job_server.ex:109-120 | From then on no job is ever launched again, whatever clients and processes do |
| `JobFailures.DoomedExactly` | ethrex_replay_web/lib/ethrex_replay_web/jobs/job_server.ex:189-246 | A job's server comes to die, or be bound to die, of closing a closed port if and only if the command ends while a cancellation or a timeout is next to be handled; nothing ever saves it |
| `JobFailures.DoomedForever` | ethrex_replay_web/lib/ethrex_replay_web/jobs/job_server.ex:189-260 | The row of such a job says running in every state of every run from there |
| `JobFailures.HaltedForever` | ethrex_replay_web/lib/ethrex_replay_web/jobs/job_server.ex:109-120 | While the committed job's server has stopped silently or is about to because no command could be built, a waiting job goes on waiting in every run without client calls |
| `JobFailures.DrainsExactly` | ethrex_replay_web/lib/ethrex_replay_web/jobs/job_queue.ex:129-172 | In every reachable state the processes can finish all jobs on their own if and only if no job is doomed and either every job could be started or none is left waiting behind one that could not |
| `JobFailures.FileLeftExactly` | ethrex_replay_web/lib/ethrex_replay_web/jobs/job_server.ex:249-260 | A step leaves Cargo.toml overridden with no server to put it back if and only if it handles a cancellation or timeout after the port has closed, with the override in place and no earlier server's last restore still to come |
| `JobFailures.FileLeftForever` | ethrex_replay_web/lib/ethrex_replay_web/jobs/job_server.ex:249-260 | From then on Cargo.toml never changes again, in any run |
| `JobRace.CancelAfterExit` | ethrex_replay_web/lib/ethrex_replay_web/jobs/job_server.ex:232-260 | Such a run, for every job with a branch and every exit status: its command ends before its cancellation is handled, and the server is gone with the row running, the file overridden and the queue stuck |
| `JobRace.OverrideStays` | ethrex_replay_web/lib/ethrex_replay_web/jobs/job_server.ex:426-481 | If no earlier server is still to put its saved text back, an override stays in place in every run until its own job is done with it |
| `JobRace.OverrideStaysExactly` | ethrex_replay_web/lib/ethrex_replay_web/jobs/job_server.ex:249-260 | An override in place stays in place in every run until its own job is done with it if and only if no earlier server is still to put the shipped text back |
| `JobRace.WriteDecides` | ethrex_replay_web/lib/ethrex_replay_web/jobs/job_server.ex:426-465 | The same, decided in the state in which the override is about to be written |
| `JobRace.OverrideCanBeLost` | ethrex_replay_web/lib/ethrex_replay_web/jobs/job_server.ex:249-260 | For every two jobs that ask for the same branch there is a run in which the second one's port is open while Cargo.toml is as shipped, because the first one's last restore came after the override |
| `JobHost.Host.constructor` | ethrex_replay_web/lib/ethrex_replay_web/jobs/job_queue.ex:52-60 | The system starts in the initial state of the transition system, where the invariant holds |
| `JobHost.ReachedKeepsInv` | ethrex_replay_web/lib/ethrex_replay_web/jobs/job_server.ex:60-260 | Whatever a server's callback amounts to keeps the invariant of the transition system, so mutual exclusion and the safety of Cargo.toml hold of the callbacks; each callback says so |
| `JobHost.Host.GetNextQueuedJob` | ethrex_replay_web/lib/ethrex_replay_web/jobs.ex:75-81 | Finds a waiting job no younger than any other waiting one, and none only if none waits |
| `JobHost.Host.SubmitJob` | ethrex_replay_web/lib/ethrex_replay_web/jobs/job_queue.ex:63-80 | Adds a pending row and sends itself the creation notice and a queue check, as the Submit action does |
| `JobHost.Host.CancelJob` | ethrex_replay_web/lib/ethrex_replay_web/jobs/job_queue.ex:87-106 | Tells the current job's server, or cancels a waiting job, or refuses, as the Cancel action does, with the reply for each case |
| `JobHost.Host.HandleCheckQueue` | ethrex_replay_web/lib/ethrex_replay_web/jobs/job_queue.ex:129-157 | Amounts to the Check action for a properly chosen job, and Adopt if its server was started |
| `JobHost.Host.HandleJobFinished` | ethrex_replay_web/lib/ethrex_replay_web/jobs/job_queue.ex:160-172 | Frees the queue and asks for a check exactly if the message is about the current job |
| `JobHost.Host.HandleJobCreated` | ethrex_replay_web/lib/ethrex_replay_web/jobs/job_queue.ex:181-185 | Asks for a queue check |
| `JobHost.Host.ApplyBranchOverride` | ethrex_replay_web/lib/ethrex_replay_web/jobs/job_server.ex:426-465 | Rewrites Cargo.toml and returns its former text exactly if a branch is asked for |
| `JobHost.Host.HandleStartJob` | ethrex_replay_web/lib/ethrex_replay_web/jobs/job_server.ex:60-122 | Amounts to the actions from marking the row to the opened port, or to the silent stop if no command can be built, after which Cargo.toml is what it was before |
| `JobHost.Host.HandleEnd` | ethrex_replay_web/lib/ethrex_replay_web/jobs/job_server.ex:140-246 | Puts Cargo.toml back, marks the row completed for exit status zero, failed for any other status, a dead port or a timeout, and cancelled for a cancellation, and tells the queue; but a timeout or cancellation that finds the port closed ends the server with row, file and mailbox as they were |
| `JobHost.Host.HandleTerminate` | ethrex_replay_web/lib/ethrex_replay_web/jobs/job_server.ex:249-260 | Puts the saved text back once more and is gone, as the Terminate action does |
| `JobLog.NoNewlines` | ethrex_replay_web/lib/ethrex_replay_web/jobs/job_server.ex:290-304 | No piece contains a newline, and text without one is its own only piece |
| `JobLog.SplitAtNewline` | ethrex_replay_web/lib/ethrex_replay_web/jobs/job_server.ex:290-304 | The pieces are the text before the first newline, without one carriage return at its end, and then the pieces of what comes after |
| `JobLog.SplitAppend` | ethrex_replay_web/lib/ethrex_replay_web/jobs/job_server.ex:290-304 | More output changes only the last piece, also when it is cut between carriage return and newline |
| `JobLog.ProcessMore` | ethrex_replay_web/lib/ethrex_replay_web/jobs/job_server.ex:125-137 | Processing more output with the unfinished rest in front of it continues the lines and the rest of the whole |
| `JobLog.ChunkIndependent` | ethrex_replay_web/lib/ethrex_replay_web/jobs/job_server.ex:125-137 | However the output is cut into chunks, lines and buffer are those of the whole output |
| `JobLog.FinalLogIsAllLines` | ethrex_replay_web/lib/ethrex_replay_web/jobs/job_server.ex:146-152 | The final log is the non-empty lines of the whole output, with an unterminated last line included |
| `JobLog.OutputLog.HandleData` | ethrex_replay_web/lib/ethrex_replay_web/jobs/job_server.ex:125-137 | Keeps log and buffer equal to those of everything received, and only appends to the log |
| `JobLog.OutputLog.Finish` | ethrex_replay_web/lib/ethrex_replay_web/jobs/job_server.ex:146-152 | Gives the non-empty lines of everything received |
| `ReplayLoop.WantedExactly` | src/cli.rs:662-664 | The list to replay holds every block of the range that is wanted (all, or multiples of 100) once, in ascending order, and no other |
| `ReplayLoop.FetchLatestBlockNumber` | src/cli.rs:1877-1904 | Gives the first answer that is a block of interest, skipping only answers that are not |
| `ReplayLoop.Bounds` | src/cli.rs:625-652 | Start and first goal are what is given, and else the first blocks of interest among the heads, the start's first; there are none exactly if the heads are used up before |
| `ReplayLoop.FollowHead` | src/cli.rs:692-702 | Asks for the head until it lies beyond the blocks replayed; when the heads are used up, the highest head of interest is the block replayed last |
| `ReplayLoop.Blocks` | src/cli.rs:613-704 | Starts at the given block or the first head of interest, goes to the given block or the next head of interest, and refuses exactly a range that ends before it starts; a finite run replays exactly the wanted blocks up to its end, and one without end exactly those up to the highest head of interest it is told of, skipping none; its loop guard never fails and the update in the skipping branch is never needed |
| `CacheNames.ParseDecimal` | src/cache.rs:166-172 | A printed number parses back to itself within 64 bits and fails to parse beyond |
| `CacheNames.ParseExactly` | src/helpers.rs:24-26 | Exactly the strings of at most one plus sign, any zeros and a number's decimal form are parsed, and as that number, within 64 bits |
| `CacheNames.DigitsByPlace` | src/helpers.rs:24-26 | Digits count by their place, the first for the most |
| `CacheNames.NameInjective` | src/cache.rs:166-172 | Equal file names come from equal networks, first blocks and last blocks, whatever characters the network's name has |
| `CacheNames.SameNameSameEnds` | src/cache.rs:113-163 | Caches written or deleted under one name are of one network and begin and end with the same blocks |
| `CacheNames.NameOfCache` | src/cache.rs:113-172 | A cache's file name is its network, the number of its first block and, for more blocks than one, a dash and the number of its last |
| `CacheNames.SliceInBounds` | src/helpers.rs:21-23 | Prefix and suffix of a matching name never overlap, so the slice between them is in bounds |
| `CacheNames.ScanOfWritten` | src/helpers.rs:18-26 | From a written cache's name the scan takes a number exactly if it is a single-block cache of the requested network, and then the block's number |
| `CacheNames.NumberExactly` | src/helpers.rs:20-26 | The scan takes a number from exactly the names that have it between the network's prefix and the suffix |
| `CacheNames.GetBlockNumbersInCacheDir` | src/helpers.rs:10-31 | The result is sorted and holds a number if and only if some regular file's name gives it, once for each such file |
| `CacheNames.ScanFindsSingleBlocks` | src/helpers.rs:10-31 | In a directory of written caches these are the numbers of the requested network's single-block caches |
| `Dummies.TrieDB.GetTrieNodesWithDummies` | src/helpers.rs:36-59 | Every original entry is unchanged, every one-nibble extension of an original path of at most 64 nibbles is present, everything added is the dummy at such a path, and the table is at most 17 times as large |
| `Dummies.InjectedOnce` | src/helpers.rs:36-59 | Only one table meets this description |
| `Dummies.WalkIsLookup` | src/helpers.rs:34-35 | On a table that holds a trie's nodes at their positions, a walk finds what the trie's lookup finds |
| `Dummies.WalkUnchanged` | src/helpers.rs:34-35 | A walk that came to an end before the injection comes to the same end after it |
| `Dummies.MissesOnlyBelowExtensions` | src/helpers.rs:34-35 | From a position in the table, a walk after the injection either ends, with a missing child taken for empty, or misses a node that belongs two or more nibbles below an extension |
| `Composition.BlockCompositionStats.ProcessTx` | src/plot_composition.rs:171-205 | Every counter stays the tally of what it counts over the transactions seen |
| `Composition.BlockCompositionStats.ProcessBlock` | src/plot_composition.rs:160-169 | So it does over a block, and transactions, gas and blocks are added up |
| `Composition.BlockCompositionStats.Counts` | src/plot_composition.rs:171-205 | Each counter is the number of transactions seen of that type, of that category (no recipient; at least four bytes of data; else by whether there is a value), to that destination or calling that selector, and for gas the sum of the gas limits of those calls |
| `Composition.TallySum` | src/plot_composition.rs:171-205 | The counts of a tally add up to what was counted |
| `Composition.EveryTxHasTypeAndCategory` | src/plot_composition.rs:171-191 | Type counts and category counts each add up to the number of transactions |
| `Composition.DestinationsMissCreations` | src/plot_composition.rs:193-196 | Destination counts and contract creations together add up to the number of transactions |
| `Composition.SelectorsAreCalls` | src/plot_composition.rs:198-204 | Selector counts add up to the contract calls |
| `Composition.BlockCompositionStats.Adds` | src/plot_composition.rs:147-205 | The three sums hold of the counters after any sequence of blocks |
| `Composition.SortedDesc` | src/plot_composition.rs:315-319 | The entries of the map, each once, largest first |
| `Composition.TruncateTo` | src/plot_composition.rs:377-390 | The first entries and one for all the others if they count anything: the sum is preserved, there are at most size + 1 entries, and of a sorted list none shown is smaller than one hidden |

## Left out

- FinalProofs.HiddenDecides: its halves differ in the nodes that the batch itself builds, since one of them may equal the node that the witness lacks.
- Batch.WitnessDecides: assumes that the first collapse onto an unknown leaf or extension can still be seen at the end of the batch, because the claim is false without (`Refill.RefillLosesSibling`); `Batch.WitnessReplayExactly` holds for all batches.
- RpcDb.RpcDB.CacheAccounts: for a database that has read nothing yet, as `with_cache` makes it; on a used one it would replace the cache.
- RpcDb.RpcDB.CachedAccount: for one thread; with several, the insert at `src/rpc/db.rs:516` could overwrite slots another thread has just merged.
- RpcDb.RpcDB.ToExecutionWitness: the virtual machine is a parameter, and its execution does not fail; the order of nodes, keys and codes follows the index rather than the iteration order of hash maps; headers are given by their numbers.
- RpcDb.RpcDB.FetchChunk: answers the requests of a chunk one after the other instead of concurrently, and none of them fails or is retried.
- Pacing.WindowBound: counts account fetches once each, not their retries and not the code requests that go with them.
- JobHost.Host.HandleEnd: the log, the results read from it and the timing columns are not in the job table of the model.
- JobHost.Host.HandleStartJob: a command that is built can be spawned.
- JobHost.Host.SubmitJob: a submission whose changeset is invalid, which changes nothing, is not an action.
- JobProgress.RestsOnlyWhenFinished: assumes that the silent stop paths are not taken; `JobFailures` says exactly when they are and what happens then.
- ReplayLoop.Blocks: the replay of a block does not fail, and a run without end is observed until the given answers for the chain's head are used up; explicit lists of blocks and cached-only ranges are not modelled.
- Composition.BlockCompositionStats.ProcessBlock: counters are unbounded, not 64 bits wide; the display names of destinations and selectors are arbitrary functions of address and call data.
- CacheNames.GetBlockNumbersInCacheDir: file names that are not valid Unicode and errors of the file system are not modelled.
- The RLP and hex-prefix encodings, nodes embedded in their parents, and the real hash function.
- HTTP, JSON, hexadecimal decoding, retries and their errors.
- Execution of transactions, payload building, signing, and the zkVM backends.
- Concurrent use of one database by several threads.
- Crashes of queue and servers other than by closing a closed port, restarts, failed writes of the job table or of `Cargo.toml`, and rows left running by an earlier server.
- Notices to the web pages (`job_updated`, `job_status`, `job_log`) and the queue's status queries, which change nothing.
- The regular expressions that rewrite `Cargo.toml` and those that read results from the log.
- The batch cache, which is looked up under another name than it is written to (`src/fetcher.rs:302-336`).
- Percentages, charts, labels, Slack messages, reports and configuration files.
