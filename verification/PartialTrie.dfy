/** A trie of which only some nodes are at hand.  Operations reach a child only by looking its
    digest up in a store, and report the first digest they need and do not find. */
module PartialTrie {
  import opened Options
  import opened Trie

  type Store = map<Digest, Node>

  datatype Result<+T> = Ok(value: T) | Missing(digest: Digest)

  /** Every node is filed under its own hash. */
  ghost predicate Consistent(store: Store) {
    forall d :: d in store ==> Keccak(store[d]) == d
  }

  /** The store made of the given nodes, inserted one after the other. */
  function Index(nodes: seq<Node>): (store: Store)
    ensures Consistent(store)
    ensures forall n :: Keccak(n) in store <==> n in nodes
  {
    if nodes == [] then map[]
    else
      var last := nodes[|nodes| - 1];
      assert nodes == nodes[..|nodes| - 1] + [last];
      Index(nodes[..|nodes| - 1])[Keccak(last) := last]
  }

  function Fetch(store: Store, d: Digest): Result<Node> {
    if d in store then Ok(store[d]) else Missing(d)
  }

  function Lookup(store: Store, n: Node, key: Path): Result<Option<Value>>
    requires Consistent(store)
    decreases n
  {
    match n
    case Leaf(path, value) => Ok(if path == key then Some(value) else None)
    case Extension(path, child) =>
      if !(path <= key) then Ok(None)
      else (match Fetch(store, child)
            case Missing(d) => Missing(d)
            case Ok(below) => Lookup(store, below, key[|path|..]))
    case Branch(children) =>
      if key == [] || Slot(children, key[0]).None? then Ok(None)
      else (match Fetch(store, children[key[0]].value)
            case Missing(d) => Missing(d)
            case Ok(below) => Lookup(store, below, key[1..]))
  }

  /** Trie lookup from a root digest, as Trie::get does on a trie made by Trie::from_nodes. */
  function LookupRoot(store: Store, root: Digest, key: Path): Result<Option<Value>>
    requires Consistent(store)
  {
    match Fetch(store, root)
    case Missing(d) => Missing(d)
    case Ok(n) => Lookup(store, n, key)
  }

  // ------------------------------------------------------------------------------- proofs

  /** The nodes met on the way along a key, as eth_getProof lists them; for an absent key the
      last one shows why it is absent. */
  function Proof(n: Node, key: Path): (nodes: seq<Node>)
    ensures nodes != [] && nodes[0] == n
    decreases n
  {
    match n
    case Leaf(_, _) => [n]
    case Extension(path, child) =>
      if path <= key then [n] + Proof(child.preimage, key[|path|..]) else [n]
    case Branch(children) =>
      if key == [] || Slot(children, key[0]).None? then [n]
      else [n] + Proof(children[key[0]].value.preimage, key[1..])
  }

  function ProofTree(t: Tree, key: Path): seq<Node> {
    if t.None? then [] else Proof(t.value, key)
  }

  ghost predicate Holds(store: Store, nodes: seq<Node>) {
    forall n :: n in nodes ==> Keccak(n) in store
  }

  /** A proof is enough to look its own key up, and gives the answer of the complete trie. */
  lemma {:induction false} LookupWithProof(store: Store, n: Node, key: Path)
    requires Consistent(store) && Holds(store, Proof(n, key)[1..])
    ensures Lookup(store, n, key) == Ok(Get(n, key))
    decreases n
  {
    var proof := Proof(n, key);
    if 1 < |proof| {
      var below := proof[1];
      assert Keccak(below) in store;
      LookupWithProof(store, below, if n.Branch? then key[1..] else key[|n.path|..]);
    }
  }

  /** With any nodes at hand, a lookup that comes to an end gives the answer of the complete trie, and
      one that does not misses a node of the proof. */
  lemma {:induction false} LookupIsRight(store: Store, n: Node, key: Path)
    requires Consistent(store)
    ensures match Lookup(store, n, key)
            case Ok(value) => value == Get(n, key)
            case Missing(d) => d !in store && d.preimage in Proof(n, key)
    decreases n
  {
    var proof := Proof(n, key);
    if 1 < |proof| && Keccak(proof[1]) in store {
      LookupIsRight(store, proof[1], if n.Branch? then key[1..] else key[|n.path|..]);
    }
  }

  /** A proof is also no more than what is needed: a lookup comes to an end exactly if all of the proof
      below its first node is there. */
  lemma {:induction false} LookupExactly(store: Store, n: Node, key: Path)
    requires Consistent(store)
    ensures Lookup(store, n, key).Ok? <==> Holds(store, Proof(n, key)[1..])
    decreases n
  {
    var proof := Proof(n, key);
    if 1 < |proof| {
      var below, rest := proof[1], if n.Branch? then key[1..] else key[|n.path|..];
      assert proof[1..] == Proof(below, rest);
      if Keccak(below) in store {
        LookupExactly(store, below, rest);
        HoldsFirst(store, below, Proof(below, rest));
      } else {
        assert below in proof[1..];
      }
    }
  }

  lemma {:induction false} HoldsFirst(store: Store, n: Node, nodes: seq<Node>)
    requires nodes != [] && nodes[0] == n && Keccak(n) in store
    ensures Holds(store, nodes) <==> Holds(store, nodes[1..])
  {
    assert nodes == [n] + nodes[1..];
  }

  lemma {:induction false} ProofByChild(n: Node, key: Path)
    requires key != [] && WellFormed(n, |key|)
    ensures Child(n, key[0]).None? ==> Proof(n, key) == [n]
    ensures Child(n, key[0]).Some? ==>
              var below := Child(n, key[0]).value;
              Proof(n, key) == [n] + if n.Branch? || below.Branch? then Proof(below, key[1..])
                                     else Proof(below, key[1..])[1..]
  {
    if n.Extension? && n.path[0] == key[0] {
      assert n.path <= key <==> n.path[1..] <= key[1..];
      if n.path <= key {
        assert key[|n.path|..] == key[1..][|n.path| - 1..];
      }
    }
  }

  // ------------------------------------------------------------------ removal, insertion

  /** What an edit leaves in memory: the new trie's node, if any, and the nodes it has built. */
  datatype Edit = Edit(node: Tree, built: seq<Node>)

  /** A graft absorbs a leaf or an extension, and stands above a branch. */
  function GraftBuilt(prefix: Path, below: Node, built: seq<Node>): seq<Node>
    requires built != []
  {
    [Graft(prefix, below)] + if below.Branch? then built else built[1..]
  }

  function Removal(store: Store, n: Node, key: Path): (r: Result<Edit>)
    requires Consistent(store)
    ensures r.Ok? && r.value.node.Some? ==> r.value.built != []
    decreases n
  {
    match n
    case Leaf(path, _) => Ok(if path == key then Edit(None, []) else Edit(Some(n), [n]))
    case Extension(path, child) =>
      if !(path <= key) then Ok(Edit(Some(n), [n]))
      else (match Fetch(store, child)
            case Missing(d) => Missing(d)
            case Ok(before) =>
              (match Removal(store, before, key[|path|..])
               case Missing(d) => Missing(d)
               case Ok(Edit(None, _)) => Ok(Edit(None, []))
               case Ok(Edit(Some(below), built)) => Ok(Edit(Some(Graft(path, below)), GraftBuilt(path, below, built)))))
    case Branch(children) =>
      if key == [] || Slot(children, key[0]).None? then Ok(Edit(Some(n), [n]))
      else (match Fetch(store, children[key[0]].value)
            case Missing(d) => Missing(d)
            case Ok(before) =>
              (match Removal(store, before, key[1..])
               case Missing(d) => Missing(d)
               case Ok(Edit(None, _)) => Collapsing(store, children[key[0] := None])
               case Ok(Edit(Some(below), built)) =>
                 var m := Branch(children[key[0] := Some(Keccak(below))]);
                 Ok(Edit(Some(m), [m] + built))))
  }

  /** The one place where a removal needs a node off the removed key's path: the only child left
      in a branch has to be read before the branch can be replaced. */
  function Collapsing(store: Store, rest: seq<Option<Digest>>): (r: Result<Edit>)
    ensures r.Ok? && r.value.node.Some? ==> r.value.built != []
  {
    var live := Live(rest);
    if |live| == 0 then Ok(Edit(None, []))
    else if |live| == 1 then
      (match Fetch(store, rest[live[0]].value)
       case Missing(d) => Missing(d)
       case Ok(sibling) => var m := Graft([live[0]], sibling); Ok(Edit(Some(m), [m])))
    else Ok(Edit(Some(Branch(rest)), [Branch(rest)]))
  }

  function BeheadedDigest(n: Node): Digest
    requires !n.Branch? && n.path != []
  {
    if n.Extension? && |n.path| == 1 then n.child else Keccak(Behead(n))
  }

  /** The node that a fork splits off a leaf's or extension's path; none when the fork can point
      at the extension's own child. */
  function Stump(n: Node): seq<Node>
    requires !n.Branch? && n.path != []
  {
    if n.Extension? && |n.path| == 1 then [] else [Behead(n)]
  }

  function Insertion(store: Store, n: Node, key: Path, value: Value): (r: Result<Edit>)
    ensures r.Ok? ==> r.value.node.Some? && r.value.built != []
    decreases |key|
  {
    if n.Branch? then
      if key == [] || |n.children| <= key[0] then Ok(Edit(Some(n), [n]))
      else if n.children[key[0]].None? then
        var leaf := Leaf(key[1..], value);
        var m := Branch(n.children[key[0] := Some(Keccak(leaf))]);
        Ok(Edit(Some(m), [m, leaf]))
      else (match Fetch(store, n.children[key[0]].value)
            case Missing(d) => Missing(d)
            case Ok(before) =>
              (match Insertion(store, before, key[1..], value)
               case Missing(d) => Missing(d)
               case Ok(Edit(below, built)) =>
                 var m := Branch(n.children[key[0] := Some(Keccak(below.value))]);
                 Ok(Edit(Some(m), [m] + built))))
    else if n.path == [] || key == [] then
      var m := if n.Leaf? && n.path == key then Leaf(key, value) else n;
      Ok(Edit(Some(m), [m]))
    else if n.path[0] == key[0] then
      (match if Stump(n) == [] then Fetch(store, BeheadedDigest(n)) else Ok(Behead(n))
       case Missing(d) => Missing(d)
       case Ok(tail) =>
         (match Insertion(store, tail, key[1..], value)
          case Missing(d) => Missing(d)
          case Ok(Edit(below, built)) =>
            Ok(Edit(Some(Graft([key[0]], below.value)), GraftBuilt([key[0]], below.value, built)))))
    else
      var leaf := Leaf(key[1..], value);
      var m := Fork(n.path[0], BeheadedDigest(n), key[0], Keccak(leaf));
      Ok(Edit(Some(m), [m, leaf] + Stump(n)))
  }

  /** Where the removal of key makes a branch collapse: the branch's position, and the slot and
      digest of the one child left in it. */
  datatype Hidden = Hidden(at: Path, slot: Nibble, digest: Digest)

  function Sibling(n: Node, key: Path): Option<Hidden>
    decreases n
  {
    match n
    case Leaf(_, _) => None
    case Extension(path, child) =>
      if path <= key then Under(path, Sibling(child.preimage, key[|path|..])) else None
    case Branch(children) =>
      if key == [] || Slot(children, key[0]).None? then None
      else if Remove(children[key[0]].value.preimage, key[1..]).Some? then
        Under([key[0]], Sibling(children[key[0]].value.preimage, key[1..]))
      else
        var live := Live(children[key[0] := None]);
        if |live| == 1 then Some(Hidden([], live[0], children[key[0] := None][live[0]].value)) else None
  }

  function Under(prefix: Path, h: Option<Hidden>): Option<Hidden> {
    if h.None? then None else Some(h.value.(at := prefix + h.value.at))
  }

  function SiblingTree(t: Tree, key: Path): Option<Hidden> {
    if t.None? then None else Sibling(t.value, key)
  }

  /** The node an insertion splits off beside the inserted key's path. */
  function SplitOff(n: Node, key: Path): seq<Node>
    decreases |key|
  {
    if key == [] then []
    else if n.Branch? then
      if Slot(n.children, key[0]).None? then [] else SplitOff(n.children[key[0]].value.preimage, key[1..])
    else if n.path == [] then []
    else if n.path[0] == key[0] then SplitOff(Behead(n), key[1..])
    else Stump(n)
  }
}
