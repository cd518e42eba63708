/** Executing a block over a database of accounts: a course of questions, each depending on the answers
    before it.  The virtual machine is a parameter. */
module Execution {
  import opened Options
  import opened Rpc
  import opened Caches

  datatype Query =
    | AskAccount(address: Address)
    | AskSlot(owner: Address, slot: SlotKey)
    | AskHash(number: nat)
    | AskCode(hash: CodeHash)

  datatype Answer =
    | AccountAnswer(state: AccountState)
    | SlotAnswer(word: Word)
    | HashAnswer(blockHash: nat)
    | CodeAnswer(code: Bytes)

  type Course = seq<(Query, Answer)>

  type Updates = map<Address, set<SlotKey>>

  /** What a block does next after a course of questions and answers, in at most limit questions, and
      the slots that it has changed, by account. */
  datatype Block = Block(next: Course -> Option<Query>, limit: nat, changed: Course -> Updates) {
    function Next(course: Course): Option<Query> {
      next(course)
    }

    function Changed(course: Course): Updates {
      changed(course)
    }
  }

  /** What the complete state before the block tells about an account; an account that it does not have
      has no nonce, no balance, no storage and no code. */
  predicate StateTold(r: Remote, a: Address, state: AccountState) {
    if Exists(r, r.pre, a) then state == r.pre.info(a)
    else state.nonce == 0 && state.balance == 0 && state.storageRoot == None && state.codeHash == KeccakCode([])
  }

  predicate WordTold(r: Remote, a: Address, k: SlotKey, word: Word) {
    word == if Exists(r, r.pre, a) then r.pre.slot(a, k) else 0
  }

  /** The answer is that of the complete state before the block. */
  predicate Told(r: Remote, q: Query, answer: Answer) {
    match q
    case AskAccount(a) => answer.AccountAnswer? && StateTold(r, a, answer.state)
    case AskSlot(a, k) => answer.SlotAnswer? && WordTold(r, a, k, answer.word)
    case AskHash(n) => answer == HashAnswer(r.blockHash(n))
    case AskCode(hash) => answer.CodeAnswer? && KeccakCode(answer.code) == hash
  }

  /** Every question is the block's next one after those before it, and gets the complete state's answer. */
  ghost predicate Follows(r: Remote, b: Block, course: Course) {
    forall i :: 0 <= i < |course| ==> b.Next(course[..i]) == Some(course[i].0) && Told(r, course[i].0, course[i].1)
  }

  /** The block has no further question. */
  ghost predicate AtEnd(b: Block, course: Course) {
    |course| <= b.limit && (|course| == b.limit || b.Next(course).None?)
  }

  /** The whole execution of the block on the complete state. */
  ghost predicate Executes(r: Remote, b: Block, course: Course) {
    Follows(r, b, course) && AtEnd(b, course)
  }

  lemma {:induction false} FollowsLonger(r: Remote, b: Block, course: Course, q: Query, answer: Answer)
    requires Follows(r, b, course) && b.Next(course) == Some(q) && Told(r, q, answer)
    ensures Follows(r, b, course + [(q, answer)])
  {
    var longer := course + [(q, answer)];
    forall i | 0 <= i < |longer|
      ensures b.Next(longer[..i]) == Some(longer[i].0) && Told(r, longer[i].0, longer[i].1)
    {
      assert longer[..i] == course[..i];
      assert course[..|course|] == course;
    }
  }

  lemma {:induction false} SameStart(r: Remote, b: Block, course: Course, other: Course, n: nat)
    requires Follows(r, b, course) && Follows(r, b, other) && n <= |course| && n <= |other|
    ensures course[..n] == other[..n]
    decreases n
  {
    if 0 < n {
      SameStart(r, b, course, other, n - 1);
      assert course[..n] == course[..n - 1] + [course[n - 1]];
      assert other[..n] == other[..n - 1] + [other[n - 1]];
    }
  }

  /** There is only one: execution over a database that answers as the complete state does asks the same
      questions, gets the same answers and ends at the same point. */
  lemma {:induction false} OneExecution(r: Remote, b: Block, course: Course, other: Course)
    requires Executes(r, b, course) && Executes(r, b, other)
    ensures course == other
  {
    assert course[..|course|] == course && other[..|other|] == other;
    if |course| <= |other| {
      SameStart(r, b, course, other, |course|);
      EndsThere(r, b, course, other);
    } else {
      SameStart(r, b, other, course, |other|);
      EndsThere(r, b, other, course);
    }
  }

  lemma {:induction false} EndsThere(r: Remote, b: Block, course: Course, other: Course)
    requires AtEnd(b, course) && Executes(r, b, other)
    requires |course| <= |other| && course == other[..|course|]
    ensures |course| == |other|
  {
  }

  predicate Asked(course: Course, q: Query) {
    exists i :: 0 <= i < |course| && course[i].0 == q
  }

  predicate CodeSeen(course: Course, hash: CodeHash) {
    || hash == EmptyCodeHash()
    || exists i :: 0 <= i < |course| && course[i].1.AccountAnswer? && course[i].1.state.codeHash == hash
  }

  /** A question has been noted as a read, with what the answer promises. */
  ghost predicate NotedIn(notes: Notes, q: Query, answer: Answer) {
    match q
    case AskAccount(a) => a in notes.addresses && answer.AccountAnswer? && answer.state.codeHash in notes.codes
    case AskSlot(a, k) => (a, k) in notes.slots && answer.SlotAnswer?
    case AskHash(n) => n in notes.hashes && answer.HashAnswer?
    case AskCode(_) => answer.CodeAnswer?
  }

  ghost predicate AllNotedIn(notes: Notes, course: Course) {
    forall i :: 0 <= i < |course| ==> NotedIn(notes, course[i].0, course[i].1)
  }

  lemma {:induction false} NotedLater(before: Notes, after: Notes, course: Course, q: Query, answer: Answer)
    requires AllNotedIn(before, course) && StillNoted(before, after) && NotedIn(after, q, answer)
    ensures AllNotedIn(after, course + [(q, answer)])
  {
  }

  /** A block asks only for code of accounts that it has read. */
  ghost predicate AsksKnownCode(b: Block) {
    forall course :: b.Next(course).Some? && b.Next(course).value.AskCode? ==>
      CodeSeen(course, b.Next(course).value.hash)
  }

  /** It has read every account it changes, and every slot it changes of an account that existed. */
  ghost predicate ReadsWhatItChanges(r: Remote, b: Block) {
    && (forall course, a :: a in b.Changed(course) ==> Asked(course, AskAccount(a)))
    && (forall course, a, k :: a in b.Changed(course) && k in b.Changed(course)[a] && Exists(r, r.pre, a) ==>
          Asked(course, AskSlot(a, k)))
  }
}
