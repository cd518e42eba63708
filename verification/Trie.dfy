/** The modified Merkle Patricia trie (Appendix D of the Ethereum Yellow Paper), for keys of one
    fixed length.  The hash of a node is a free constructor, hence injective; a node refers to its
    children by their digests.  Operations in this module follow digests freely: they are the
    meaning of a complete trie.  Module PartialTrie restricts them to a store of known nodes. */
module Trie {
  import opened Options

  newtype byte = x: int | 0 <= x < 0x100
  type Nibble = x: int | 0 <= x < 16
  type Path = seq<Nibble>
  type Value = seq<byte>

  /** A node without its RLP encoding.  Paths carry no terminator nibble: whether a path ends in
      a value is what distinguishes a leaf from an extension.  All keys have the same length, so
      a branch never holds a value of its own. */
  datatype Node =
    | Leaf(path: Path, value: Value)
    | Extension(path: Path, child: Digest)
    | Branch(children: seq<Option<Digest>>)

  datatype Digest = Keccak(preimage: Node)

  /** The slots of a branch without children. */
  function NoChildren(): (children: seq<Option<Digest>>)
    ensures |children| == 16 && forall x: Nibble :: children[x].None?
  {
    seq(16, i => None)
  }

  /** A whole trie; None is the empty one. */
  type Tree = Option<Node>

  function RootOf(t: Tree): Option<Digest> {
    if t.None? then None else Some(Keccak(t.value))
  }

  /** Slot x of a branch; a branch that decodes with fewer slots has none there. */
  function Slot(children: seq<Option<Digest>>, x: Nibble): (d: Option<Digest>)
    ensures d.Some? ==> x < |children|
  {
    if x < |children| then children[x] else None
  }

  /** The occupied slots of a branch, in order. */
  function Live(children: seq<Option<Digest>>): (live: seq<Nibble>)
    ensures forall x: Nibble :: x in live <==> Slot(children, x).Some?
    ensures forall i :: 0 <= i < |live| ==> Slot(children, live[i]).Some?
    ensures forall i, j :: 0 <= i < j < |live| ==> live[i] < live[j]
  {
    Occupied(children, if |children| < 16 then |children| else 16)
  }

  /** A number of slots. */
  type Slots = k: nat | k <= 16

  /** The occupied slots below slot k. */
  function Occupied(children: seq<Option<Digest>>, k: Slots): (live: seq<Nibble>)
    ensures forall x: Nibble :: x in live <==> x < k && Slot(children, x).Some?
    ensures forall i :: 0 <= i < |live| ==> live[i] < k && Slot(children, live[i]).Some?
    ensures forall i, j :: 0 <= i < j < |live| ==> live[i] < live[j]
  {
    if k == 0 then []
    else if Slot(children, k - 1).Some? then Occupied(children, k - 1) + [k - 1]
    else Occupied(children, k - 1)
  }

  /** Well-formed for keys of length len: a branch has at least two children, an extension has a
      non-empty path and a branch below it, and a leaf completes the key. */
  predicate WellFormed(n: Node, len: nat)
    decreases n
  {
    if n.Leaf? then |n.path| == len
    else if n.Extension? then
      0 < |n.path| <= len && n.child.preimage.Branch? && WellFormed(n.child.preimage, len - |n.path|)
    else
      && 0 < len
      && |n.children| == 16
      && 2 <= |Live(n.children)|
      && forall x: Nibble :: n.children[x].Some? ==> WellFormed(n.children[x].value.preimage, len - 1)
  }

  predicate WellFormedTree(t: Tree, len: nat) {
    t.Some? ==> WellFormed(t.value, len)
  }

  // ---------------------------------------------------------------- lookup, removal, insertion

  function Get(n: Node, key: Path): Option<Value>
    decreases n
  {
    match n
    case Leaf(path, value) => if path == key then Some(value) else None
    case Extension(path, child) =>
      if path <= key then Get(child.preimage, key[|path|..]) else None
    case Branch(children) =>
      if key == [] || Slot(children, key[0]).None? then None
      else Get(children[key[0]].value.preimage, key[1..])
  }

  function GetTree(t: Tree, key: Path): Option<Value> {
    if t.None? then None else Get(t.value, key)
  }

  /** A node that says "prefix, then n". */
  function Graft(prefix: Path, n: Node): Node {
    match n
    case Leaf(path, value) => Leaf(prefix + path, value)
    case Extension(path, child) => Extension(prefix + path, child)
    case Branch(_) => Extension(prefix, Keccak(n))
  }

  /** Removal.  A branch left with one child is replaced by that child, whose path absorbs the
      slot's nibble; an extension absorbs whatever non-branch node comes up from below. */
  function Remove(n: Node, key: Path): Tree
    decreases n
  {
    match n
    case Leaf(path, _) => if path == key then None else Some(n)
    case Extension(path, child) =>
      if !(path <= key) then Some(n)
      else (match Remove(child.preimage, key[|path|..])
            case None => None
            case Some(below) => Some(Graft(path, below)))
    case Branch(children) =>
      if key == [] || Slot(children, key[0]).None? then Some(n)
      else (match Remove(children[key[0]].value.preimage, key[1..])
            case Some(below) => Some(Branch(children[key[0] := Some(Keccak(below))]))
            case None => Collapse(children[key[0] := None]))
  }

  /** What replaces a branch that has just lost a child. */
  function Collapse(rest: seq<Option<Digest>>): Tree {
    var live := Live(rest);
    if |live| == 0 then None
    else if |live| == 1 then Some(Graft([live[0]], rest[live[0]].value.preimage))
    else Some(Branch(rest))
  }

  function RemoveTree(t: Tree, key: Path): Tree {
    if t.None? then None else Remove(t.value, key)
  }

  /** The node left when the first nibble of a leaf's or extension's path has been followed. */
  function Behead(n: Node): Node
    requires !n.Branch? && n.path != []
  {
    match n
    case Leaf(path, value) => Leaf(path[1..], value)
    case Extension(path, child) =>
      if |path| == 1 then child.preimage else Extension(path[1..], child)
  }

  function Fork(x: Nibble, a: Digest, y: Nibble, b: Digest): Node {
    Branch(NoChildren()[x := Some(a)][y := Some(b)])
  }

  /** Insertion or update: follows the common nibbles, then forks.  A key that runs out inside the
      trie, which keys of one length never do, leaves it as it is. */
  function Insert(n: Node, key: Path, value: Value): Node
    decreases |key|
  {
    if n.Branch? then
      if key == [] || |n.children| <= key[0] then n
      else
        var slot := n.children[key[0]];
        var below := if slot.None? then Leaf(key[1..], value) else Insert(slot.value.preimage, key[1..], value);
        Branch(n.children[key[0] := Some(Keccak(below))])
    else if n.path == [] || key == [] then (if n.Leaf? && n.path == key then Leaf(key, value) else n)
    else if n.path[0] == key[0] then Graft([key[0]], Insert(Behead(n), key[1..], value))
    else Fork(n.path[0], Keccak(Behead(n)), key[0], Keccak(Leaf(key[1..], value)))
  }

  function InsertTree(t: Tree, key: Path, value: Value): Tree {
    Some(if t.None? then Leaf(key, value) else Insert(t.value, key, value))
  }

  // --------------------------------------------------------------------------- positions

  /** What lies below nibble x of a node. */
  function Child(n: Node, x: Nibble): Tree {
    match n
    case Branch(children) => if Slot(children, x).None? then None else Some(children[x].value.preimage)
    case _ => if n.path != [] && n.path[0] == x then Some(Behead(n)) else None
  }

  function ChildTree(t: Tree, x: Nibble): Tree {
    if t.None? then None else Child(t.value, x)
  }

  /** The trie of everything below position at; it may start in the middle of a node's path. */
  function Sub(t: Tree, at: Path): Tree
    decreases |at|
  {
    if at == [] then t else Sub(ChildTree(t, at[0]), at[1..])
  }
}
