/** Dummy branches put into a trie's node table, which is addressed by path, so that execution can
    step onto nodes that were never fetched. */
module Dummies {
  import opened Trie

  /** A position: nibbles from the root, with the leaf flag at the end of a full path. */
  type Position = seq<nat>
  type NodeTable = map<Position, Node>

  /** Nibbles of a full path; positions longer than this carry the leaf flag. */
  const FULL_PATH: nat := 64

  /** Nothing is below it. */
  function DummyBranch(): (n: Node)
    ensures n.Branch? && |n.children| == 16 && forall x: Nibble :: n.children[x].None?
    ensures forall key: Path :: Get(n, key).None?
  {
    Branch(NoChildren())
  }

  ghost predicate Extends(k: Position, p: Position) {
    |k| == |p| + 1 && k[..|p|] == p && k[|p|] < 16
  }

  /** The table after injection, entry by entry. */
  ghost predicate Injected(before: NodeTable, after: NodeTable, dummy: Node) {
    && (forall p :: p in before ==> p in after && after[p] == before[p])
    && (forall p, k :: p in before && |p| <= FULL_PATH && Extends(k, p) ==> k in after)
    && (forall k :: k in after && k !in before ==>
        after[k] == dummy && exists p :: p in before && |p| <= FULL_PATH && Extends(k, p))
  }

  /** These properties leave no choice. */
  lemma {:induction false} InjectedOnce(before: NodeTable, after: NodeTable, other: NodeTable, dummy: Node)
    requires Injected(before, after, dummy) && Injected(before, other, dummy)
    ensures after == other
  {
    assert forall k :: k in after <==> k in other;
  }

  class TrieDB {
    var nodes: NodeTable

    constructor (nodes: NodeTable)
      ensures this.nodes == nodes
    {
      this.nodes := nodes;
    }

    /** Injects the dummies and returns the table. */
    method GetTrieNodesWithDummies() returns (all: NodeTable)
      modifies this
      ensures all == nodes && Injected(old(nodes), nodes, DummyBranch())
      ensures forall p, nibble: nat :: p in old(nodes) && |p| <= 64 && nibble < 16 ==> p + [nibble] in nodes
      ensures forall k :: k in nodes && k !in old(nodes) ==> 0 < |k| <= 65 && k[..|k| - 1] in old(nodes)
      ensures |nodes| <= 17 * |old(nodes)|
    {
      ghost var before := nodes;
      var dummy := DummyBranch();
      var pending := nodes.Keys;
      while pending != {}
        invariant pending <= before.Keys
        invariant forall p :: p in before ==> p in nodes && nodes[p] == before[p]
        invariant forall p, k :: p in before && p !in pending && |p| <= FULL_PATH && Extends(k, p) ==> k in nodes
        invariant forall k :: k in nodes && k !in before ==>
                  nodes[k] == dummy && exists p :: p in before && |p| <= FULL_PATH && Extends(k, p)
        invariant |nodes| <= |before| + 16 * (|before| - |pending|)
        decreases pending
      {
        var nibbles :| nibbles in pending;
        if |nibbles| <= FULL_PATH {
          InjectBelow(nibbles, before);
        }
        pending := pending - {nibbles};
      }
      all := nodes;
      forall p, nibble: nat | p in before && |p| <= 64 && nibble < 16 ensures p + [nibble] in nodes {
        assert Extends(p + [nibble], p);
      }
    }

    method InjectBelow(nibbles: Position, ghost before: NodeTable)
      requires nibbles in before && |nibbles| <= FULL_PATH
      requires forall p :: p in before ==> p in nodes && nodes[p] == before[p]
      modifies this
      ensures old(nodes).Keys <= nodes.Keys && forall p :: p in old(nodes) ==> nodes[p] == old(nodes)[p]
      ensures forall k :: Extends(k, nibbles) ==> k in nodes
      ensures forall k :: k in nodes && k !in old(nodes) ==> nodes[k] == DummyBranch() && Extends(k, nibbles)
      ensures |nodes| <= |old(nodes)| + 16
    {
      var dummy := DummyBranch();
      for nibble := 0 to 16
        invariant old(nodes).Keys <= nodes.Keys && forall p :: p in old(nodes) ==> nodes[p] == old(nodes)[p]
        invariant forall k :: Extends(k, nibbles) && k[|nibbles|] < nibble ==> k in nodes
        invariant forall k :: k in nodes && k !in old(nodes) ==> nodes[k] == dummy && Extends(k, nibbles)
        invariant |nodes| <= |old(nodes)| + nibble
      {
        var key := nibbles + [nibble];
        if key !in nodes {
          nodes := nodes[key := dummy];
        }
        forall k | Extends(k, nibbles) && k[|nibbles|] < nibble + 1 ensures k in nodes {
          if k[|nibbles|] == nibble {
            assert k == key;
          }
        }
      }
    }
  }

  // -------------------------------------------------------------------------- walks

  datatype Walked = Found(value: Value) | Absent | MissingAt(position: Position)

  function Down(at: Position, path: Path): Position {
    var steps: seq<nat> := path;
    at + steps
  }

  /** q is where the child of an extension in the table belongs, two or more nibbles below it. */
  ghost predicate FarBelowExtension(before: NodeTable, q: Position) {
    exists p :: p in before && before[p].Extension? && |before[p].path| != 1 && q == Down(p, before[p].path)
  }

  /** Looking a key up by positions. */
  function Walk(nodes: NodeTable, at: Position, key: Path): Walked
    decreases |key|
  {
    if at !in nodes then MissingAt(at)
    else
      match nodes[at]
      case Leaf(path, value) => if path == key then Found(value) else Absent
      case Extension(path, _) =>
        if path != [] && path <= key then Walk(nodes, Down(at, path), key[|path|..]) else Absent
      case Branch(children) =>
        if key == [] || Slot(children, key[0]).None? then Absent else Walk(nodes, at + [key[0]], key[1..])
  }

  /** The table holds a trie's nodes, each at its position. */
  ghost predicate Filed(nodes: NodeTable, at: Position, n: Node)
    decreases n
  {
    && at in nodes && nodes[at] == n
    && match n
       case Leaf(_, _) => true
       case Extension(path, child) => Filed(nodes, Down(at, path), child.preimage)
       case Branch(children) =>
         forall x: Nibble :: Slot(children, x).Some? ==> Filed(nodes, at + [x], children[x].value.preimage)
  }

  /** On a table that holds a trie a walk is the trie's lookup. */
  lemma {:induction false} WalkIsLookup(nodes: NodeTable, at: Position, n: Node, key: Path)
    requires Filed(nodes, at, n) && WellFormed(n, |key|)
    ensures Walk(nodes, at, key) == if Get(n, key).Some? then Found(Get(n, key).value) else Absent
    decreases n
  {
    match n
    case Leaf(_, _) =>
    case Extension(path, child) =>
      if path <= key {
        WalkIsLookup(nodes, Down(at, path), child.preimage, key[|path|..]);
      }
    case Branch(children) =>
      if Slot(children, key[0]).Some? {
        WalkIsLookup(nodes, at + [key[0]], children[key[0]].value.preimage, key[1..]);
      }
  }

  /** A walk that came to an end before the injection comes to the same end after it. */
  lemma {:induction false} WalkUnchanged(before: NodeTable, after: NodeTable, at: Position, key: Path)
    requires Injected(before, after, DummyBranch()) && !Walk(before, at, key).MissingAt?
    ensures Walk(after, at, key) == Walk(before, at, key)
    decreases |key|
  {
    match before[at]
    case Leaf(_, _) =>
    case Extension(path, _) =>
      if path != [] && path <= key {
        WalkUnchanged(before, after, Down(at, path), key[|path|..]);
      }
    case Branch(children) =>
      if key != [] && Slot(children, key[0]).Some? {
        WalkUnchanged(before, after, at + [key[0]], key[1..]);
      }
  }

  /** From a position in the table, a walk after the injection can only miss the child of an
      extension with more than one nibble; a missing child of a branch is taken to be empty. */
  lemma {:induction false} MissesOnlyBelowExtensions(before: NodeTable, after: NodeTable, at: Position, key: Path)
    requires Injected(before, after, DummyBranch())
    requires at in before && |at| + |key| <= 64
    ensures match Walk(before, at, key)
            case MissingAt(q) =>
              if q in after then Walk(after, at, key) == Absent
              else Walk(after, at, key) == MissingAt(q) && FarBelowExtension(before, q)
            case done => Walk(after, at, key) == done
    decreases |key|, 0
  {
    match before[at]
    case Leaf(_, _) =>
    case Extension(path, _) =>
      if path != [] && path <= key {
        NextPosition(before, after, at, key, Down(at, path), key[|path|..]);
      }
    case Branch(children) =>
      if key != [] && Slot(children, key[0]).Some? {
        NextPosition(before, after, at, key, at + [key[0]], key[1..]);
      }
  }

  lemma {:induction false} NextPosition(before: NodeTable, after: NodeTable, at: Position, key: Path,
      next: Position, rest: Path)
    requires Injected(before, after, DummyBranch())
    requires at in before && |at| + |key| <= 64 && |rest| < |key| && |next| + |rest| == |at| + |key|
    requires before[at].Branch? ==> Extends(next, at)
    requires before[at].Extension? ==> next == Down(at, before[at].path)
    requires !before[at].Leaf?
    requires Walk(before, at, key) == Walk(before, next, rest) && Walk(after, at, key) == Walk(after, next, rest)
    ensures match Walk(before, at, key)
            case MissingAt(q) =>
              if q in after then Walk(after, at, key) == Absent
              else Walk(after, at, key) == MissingAt(q) && FarBelowExtension(before, q)
            case done => Walk(after, at, key) == done
    decreases |rest|, 1
  {
    if next in before {
      MissesOnlyBelowExtensions(before, after, next, rest);
    } else if next in after {
      assert Walk(after, next, rest) == Absent;
    } else {
      assert before[at].Extension?;
      assert !Extends(next, at);
    }
  }
}
