/** The nodes added to a witness so that deletions can collapse branches whose remaining child was
    never read (get_potential_child_nodes), and why they are the right ones. */
module Witness {
  import opened Options
  import opened Trie
  import opened TrieLaws
  import opened PartialTrie
  import opened PartialTrieLaws

  /** s is m with nibbles taken off the front of its path. */
  predicate Shortened(s: Node, m: Node) {
    match (s, m)
    case (Leaf(p, v), Leaf(q, w)) => v == w && |p| <= |q| && q[|q| - |p|..] == p
    case (Extension(p, c), Extension(q, d)) => c == d && |p| <= |q| && q[|q| - |p|..] == p
    case _ => false
  }

  function PathFrom(m: Node, k: nat): Node
    requires !m.Branch? && k <= |m.path|
  {
    match m
    case Leaf(path, value) => Leaf(path[k..], value)
    case Extension(path, child) => Extension(path[k..], child)
  }

  /** Every node with the content of m and a suffix of its path, longest first. */
  function Suffixes(m: Node): (nodes: seq<Node>)
    requires !m.Branch?
    ensures forall s :: s in nodes <==> Shortened(s, m)
    ensures |nodes| == |m.path| + 1
    ensures forall k :: 0 <= k < |nodes| ==> !nodes[k].Branch? && |nodes[k].path| == |m.path| - k
  {
    var nodes := seq(|m.path| + 1, k requires 0 <= k <= |m.path| => PathFrom(m, k));
    assert forall s :: s in nodes <==> Shortened(s, m) by {
      forall s | Shortened(s, m) ensures s in nodes {
        assert nodes[|m.path| - |s.path|] == s;
      }
    }
    nodes
  }

  /** None unless the proof excludes the key and ends in a leaf or an extension. */
  function PotentialChildNodes(proof: seq<Node>, key: Path): Option<seq<Node>> {
    if proof == [] then None
    else if LookupRoot(Index(proof), Keccak(proof[0]), key) != Ok(None) then None
    else if proof[|proof| - 1].Branch? then None
    else Some(Suffixes(proof[|proof| - 1]))
  }

  function Potential(proof: seq<Node>, key: Path): seq<Node> {
    var nodes := PotentialChildNodes(proof, key);
    if nodes.None? then [] else nodes.value
  }

  const LEAF_FLAG := 16

  /** The nibbles of a leaf as the code holds them: the path, then the leaf flag. */
  function Flagged(path: Path): seq<nat> {
    path + [LEAF_FLAG]
  }

  function Unflagged(nibbles: seq<nat>): (path: Path)
    requires nibbles != [] && forall i :: 0 <= i < |nibbles| - 1 ==> nibbles[i] < 16
    ensures |path| == |nibbles| - 1 && forall i :: 0 <= i < |path| ==> path[i] == nibbles[i]
  {
    seq(|nibbles| - 1, i requires 0 <= i < |nibbles| - 1 => nibbles[i] as Nibble)
  }

  /** Files the nodes of a proof under their hashes. */
  method NodesByHash(proof: seq<Node>) returns (stateNodes: Store)
    ensures stateNodes == Index(proof)
  {
    stateNodes := map[];
    for i := 0 to |proof|
      invariant stateNodes == Index(proof[..i])
    {
      stateNodes := stateNodes[Keccak(proof[i]) := proof[i]];
      assert proof[..i + 1][..i] == proof[..i];
    }
    assert proof[..|proof|] == proof;
  }

  /** Pops every nibble off an extension's prefix, keeping every stage. */
  method ExtensionVariants(path: Path, child: Digest) returns (variants: seq<Node>)
    ensures variants == Suffixes(Extension(path, child))
  {
    var prefix := path;
    variants := [Extension(prefix, child)];
    while prefix != []
      invariant |prefix| <= |path| && prefix == path[|path| - |prefix|..]
      invariant |variants| == |path| - |prefix| + 1
      invariant forall k :: 0 <= k < |variants| ==> variants[k] == Extension(path[k..], child)
      decreases |prefix|
    {
      prefix := prefix[1..];
      variants := variants + [Extension(prefix, child)];
    }
  }

  lemma {:induction false} FlagLast(path: Path, k: nat)
    requires k <= |path|
    ensures var nibbles := Flagged(path)[k..];
            nibbles != [] && (forall i :: 0 <= i < |nibbles| - 1 ==> nibbles[i] < 16) && Unflagged(nibbles) == path[k..]
  {
    var nibbles := Flagged(path)[k..];
    assert forall i :: 0 <= i < |nibbles| - 1 ==> nibbles[i] == path[k + i];
  }

  /** Pops the nibbles off a leaf's partial path up to its flag, which every stage keeps: without
      it the node would be encoded as an extension. */
  method LeafVariants(path: Path, value: Value) returns (variants: seq<Node>)
    ensures variants == Suffixes(Leaf(path, value))
  {
    var partial := Flagged(path);
    variants := [];
    while partial != []
      invariant |variants| <= |path| + 1 && partial == Flagged(path)[|variants|..]
      invariant forall k :: 0 <= k < |variants| ==> variants[k] == Leaf(path[k..], value)
      decreases |partial|
    {
      FlagLast(path, |variants|);
      variants := variants + [Leaf(Unflagged(partial), value)];
      partial := partial[1..];
    }
  }

  method GetPotentialChildNodes(proof: seq<Node>, key: Path) returns (nodes: Option<seq<Node>>)
    ensures nodes == PotentialChildNodes(proof, key)
  {
    var stateNodes := NodesByHash(proof);
    if |proof| == 0 || LookupRoot(stateNodes, Keccak(proof[0]), key) != Ok(None) {
      return None;
    }
    match proof[|proof| - 1] {
      case Extension(path, child) =>
        var variants := ExtensionVariants(path, child);
        return Some(variants);
      case Leaf(path, value) =>
        var variants := LeafVariants(path, value);
        return Some(variants);
      case Branch(_) =>
        return None;
    }
  }

  // ---------------------------------------------------------- where a collapse happens

  lemma {:induction false} SubOfGraft(prefix: Path, n: Node, at: Path, len: nat)
    requires prefix != [] && WellFormed(n, len)
    ensures Sub(Some(Graft(prefix, n)), prefix + at) == Sub(Some(n), at)
    decreases |prefix|
  {
    GraftChild(prefix, n, len);
    assert (prefix + at)[1..] == prefix[1..] + at;
    if |prefix| == 1 {
      assert prefix[1..] + at == at;
    } else {
      SubOfGraft(prefix[1..], n, at, len);
    }
  }

  /** The collapse lies on the removed key's path, beside it, at a branch; after the removal only
      the sibling is left there, under its slot's nibble. */
  ghost predicate Explains(t: Tree, key: Path, h: Hidden, after: Tree) {
    && |h.at| < |key| && h.at <= key && h.slot != key[|h.at|]
    && Sub(t, h.at).Some? && Sub(t, h.at).value.Branch?
    && Child(Sub(t, h.at).value, h.slot) == Some(h.digest.preimage)
    && Sub(after, h.at) == Some(Graft([h.slot], h.digest.preimage))
  }

  lemma {:induction false} PositionUnderPath(n: Node, key: Path, inner: Hidden)
    requires n.Extension? && WellFormed(n, |key|) && n.path <= key
    requires Sibling(n.child.preimage, key[|n.path|..]) == Some(inner)
    requires Explains(Some(n.child.preimage), key[|n.path|..], inner, Remove(n.child.preimage, key[|n.path|..]))
    ensures Explains(Some(n), key, Sibling(n, key).value, Remove(n, key))
  {
    var below, rest := n.child.preimage, key[|n.path|..];
    RemoveWellFormed(below, rest);
    SubOfEmpty(inner.at);
    SubOfGraft(n.path, below, inner.at, |rest|);
    SubOfGraft(n.path, Remove(below, rest).value, inner.at, |rest|);
    assert key == n.path + rest;
    Prefixed(n.path, rest, inner.at);
  }

  lemma {:induction false} Prefixed(prefix: Path, rest: Path, at: Path)
    requires |at| < |rest| && at <= rest
    ensures |prefix + at| < |prefix + rest| && prefix + at <= prefix + rest
    ensures (prefix + rest)[|prefix + at|] == rest[|at|]
  {
  }

  lemma {:induction false} PositionUnderBranch(n: Node, key: Path, inner: Hidden)
    requires n.Branch? && key != [] && WellFormed(n, |key|) && Child(n, key[0]).Some?
    requires Remove(Child(n, key[0]).value, key[1..]).Some? && Sibling(Child(n, key[0]).value, key[1..]) == Some(inner)
    requires Explains(Child(n, key[0]), key[1..], inner, Remove(Child(n, key[0]).value, key[1..]))
    ensures Explains(Some(n), key, Sibling(n, key).value, Remove(n, key))
  {
    var h := Sibling(n, key).value;
    assert h.at[1..] == inner.at && h.at[0] == key[0];
    assert key == [key[0]] + key[1..];
  }

  lemma {:induction false} PositionHere(n: Node, key: Path)
    requires n.Branch? && key != [] && WellFormed(n, |key|) && Child(n, key[0]).Some?
    requires Remove(Child(n, key[0]).value, key[1..]).None? && Sibling(n, key).Some?
    ensures Explains(Some(n), key, Sibling(n, key).value, Remove(n, key))
  {
    var rest := n.children[key[0] := None];
    assert Live(rest)[0] in Live(rest);
  }

  lemma {:induction false} CollapsePosition(n: Node, key: Path)
    requires WellFormed(n, |key|) && Sibling(n, key).Some?
    ensures Explains(Some(n), key, Sibling(n, key).value, Remove(n, key))
    decreases n
  {
    if n.Extension? {
      var below, rest := n.child.preimage, key[|n.path|..];
      CollapsePosition(below, rest);
      PositionUnderPath(n, key, Sibling(below, rest).value);
    } else if n.Branch? {
      var below, rest := n.children[key[0]].value.preimage, key[1..];
      if Remove(below, rest).Some? {
        CollapsePosition(below, rest);
        PositionUnderBranch(n, key, Sibling(below, rest).value);
      } else {
        PositionHere(n, key);
      }
    }
  }

  lemma {:induction false} ExplainedHere(n: Node, key: Path, h: Hidden)
    requires WellFormed(n, |key|) && h.at == [] && Explains(Some(n), key, h, Remove(n, key))
    ensures Sibling(n, key) == Some(h)
  {
    assert h.slot in Live(n.children[key[0] := None]);
  }

  lemma {:induction false} SiblingAlongPath(n: Node, key: Path, inner: Hidden)
    requires n.Extension? && n.path != [] && key != [] && n.path[0] == key[0]
    requires Sibling(Behead(n), key[1..]) == Some(inner)
    ensures Sibling(n, key) == Some(inner.(at := [key[0]] + inner.at))
  {
    assert n.path == [key[0]] + n.path[1..];
    assert n.path <= key;
    if 1 < |n.path| {
      assert key[1..][|n.path| - 1..] == key[|n.path|..];
      var lowest := Sibling(n.child.preimage, key[|n.path|..]).value;
      assert n.path + lowest.at == [key[0]] + (n.path[1..] + lowest.at);
      assert inner == lowest.(at := n.path[1..] + lowest.at);
    } else {
      assert n.path == [key[0]];
    }
  }

  lemma {:induction false} SiblingByChild(n: Node, key: Path, inner: Hidden)
    requires key != [] && WellFormed(n, |key|) && Child(n, key[0]).Some?
    requires Sibling(Child(n, key[0]).value, key[1..]) == Some(inner)
    requires Remove(Child(n, key[0]).value, key[1..]).Some?
    ensures Sibling(n, key) == Some(inner.(at := [key[0]] + inner.at))
  {
    if n.Extension? {
      SiblingAlongPath(n, key, inner);
    }
  }

  lemma {:induction false} ExplainedIsSibling(n: Node, key: Path, h: Hidden)
    requires WellFormed(n, |key|) && Explains(Some(n), key, h, Remove(n, key))
    ensures Sibling(n, key) == Some(h)
    decreases |h.at|
  {
    if h.at == [] {
      ExplainedHere(n, key, h);
    } else {
      var inner := h.(at := h.at[1..]);
      ExplainedBelow(n, key, h);
      ExplainedIsSibling(Child(n, key[0]).value, key[1..], inner);
      SiblingByChild(n, key, inner);
      Rejoined(key, h);
    }
  }

  lemma {:induction false} TailsAlong(key: Path, at: Path)
    requires at != [] && at <= key && |at| < |key|
    ensures at[0] == key[0] && at[1..] <= key[1..] && key[1..][|at| - 1] == key[|at|]
  {
  }

  lemma {:induction false} Rejoined(key: Path, h: Hidden)
    requires h.at != [] && h.at <= key
    ensures h.(at := [key[0]] + h.at[1..]) == h
  {
  }

  /** The hidden sibling is what the trie and the trie after the removal say it is: the one thing left
      under a branch on the key's way. */
  lemma {:induction false} CollapseExactly(n: Node, key: Path, h: Hidden)
    requires WellFormed(n, |key|)
    ensures Sibling(n, key) == Some(h) <==> Explains(Some(n), key, h, Remove(n, key))
  {
    if Sibling(n, key) == Some(h) {
      CollapsePosition(n, key);
    } else if Explains(Some(n), key, h, Remove(n, key)) {
      ExplainedIsSibling(n, key, h);
    }
  }

  lemma {:induction false} ExplainedBelow(n: Node, key: Path, h: Hidden)
    requires WellFormed(n, |key|) && h.at != [] && Explains(Some(n), key, h, Remove(n, key))
    ensures Child(n, key[0]).Some? && WellFormed(Child(n, key[0]).value, |key| - 1)
    ensures Remove(Child(n, key[0]).value, key[1..]).Some?
    ensures Explains(Child(n, key[0]), key[1..], h.(at := h.at[1..]), Remove(Child(n, key[0]).value, key[1..]))
  {
    SubOfEmpty(h.at[1..]);
    RemoveByChild(n, key);
    ChildWellFormed(n, |key|, key[0]);
    TailsAlong(key, h.at);
  }

  lemma {:induction false} BelowChild(n: Node, key: Path)
    requires key != [] && WellFormed(n, |key|) && Child(n, key[0]).Some?
    ensures Below(Child(n, key[0]).value, key[1..]) <= Below(n, key)
    ensures n.Branch? ==> Child(n, key[0]).value in Below(n, key)
    ensures WellFormed(Child(n, key[0]).value, |key| - 1)
  {
    BelowByChild(n, key);
    ChildWellFormed(n, |key|, key[0]);
  }

  ghost predicate OnProof(child: Node, n: Node, key: Path) {
    child in Below(n, key)
  }

  lemma {:induction false} OnProofAbove(n: Node, key: Path, next: Node, child: Node)
    requires key != [] && WellFormed(n, |key|) && Child(n, key[0]) == Some(next)
    requires OnProof(child, next, key[1..]) || (n.Branch? && child == next)
    ensures OnProof(child, n, key)
  {
    BelowChild(n, key);
  }

  /** The node at a position is a branch with the child in the slot. */
  ghost predicate BranchAt(t: Tree, at: Path, slot: Nibble, child: Node) {
    var here := Sub(t, at);
    here.Some? && here.value.Branch? && Child(here.value, slot) == Some(child)
  }

  lemma {:induction false} OnProofHere(n: Node, key: Path, child: Node)
    requires key != [] && WellFormed(n, |key|) && BranchAt(Some(n), [], key[0], child)
    ensures OnProof(child, n, key)
  {
    OnProofAbove(n, key, child, child);
  }

  lemma {:induction false} BranchAtBelow(n: Node, len: nat, at: Path, slot: Nibble, child: Node)
    requires at != [] && WellFormed(n, len) && BranchAt(Some(n), at, slot, child)
    ensures Child(n, at[0]).Some? && BranchAt(Child(n, at[0]), at[1..], slot, child)
    ensures 0 < len && WellFormed(Child(n, at[0]).value, len - 1)
  {
    SubOfEmpty(at[1..]);
    ChildWellFormed(n, len, at[0]);
  }

  lemma {:induction false} OnProofStep(n: Node, at: Path, rest: Path, next: Node, child: Node)
    requires at != [] && WellFormed(n, |at| + |rest|) && Child(n, at[0]) == Some(next)
    requires OnProof(child, next, at[1..] + rest)
    ensures OnProof(child, n, at + rest)
  {
    assert (at + rest)[0] == at[0] && (at + rest)[1..] == at[1..] + rest;
    OnProofAbove(n, at + rest, next, child);
  }

  /** A child of a branch is on the proof of every key that passes through it. */
  lemma {:induction false} ChildOnProof(n: Node, at: Path, rest: Path, child: Node)
    requires rest != [] && WellFormed(n, |at| + |rest|) && BranchAt(Some(n), at, rest[0], child)
    ensures OnProof(child, n, at + rest)
    decreases |at|
  {
    if at == [] {
      assert at + rest == rest;
      OnProofHere(n, rest, child);
    } else {
      var next := Child(n, at[0]);
      BranchAtBelow(n, |at| + |rest|, at, rest[0], child);
      ChildOnProof(next.value, at[1..], rest, child);
      OnProofStep(n, at, rest, next.value, child);
    }
  }

  // ------------------------------------------------------ what an exclusion proof shows

  ghost predicate Shows(n: Node, key: Path, sibling: Node) {
    Get(n, key) == None && Shortened(sibling, Proof(n, key)[|Proof(n, key)| - 1])
  }

  /** If all there is below a position on the key's way is one leaf or extension under another
      nibble, the key is absent and its proof ends in a node that continues with it. */
  lemma {:induction false} ExclusionShows(n: Node, key: Path, at: Path, slot: Nibble, sibling: Node)
    requires WellFormed(n, |key|) && |at| < |key| && at <= key && slot != key[|at|]
    requires Sub(Some(n), at) == Some(Graft([slot], sibling)) && !sibling.Branch?
    ensures Shows(n, key, sibling)
    decreases |at|
  {
    if at == [] {
      assert n.path[0] == slot;
    } else {
      ChildWellFormed(n, |key|, key[0]);
      SubOfEmpty(at[1..]);
      ExclusionShows(Child(n, key[0]).value, key[1..], at[1..], slot, sibling);
      ShownAbove(n, key, sibling);
    }
  }

  lemma {:induction false} ShownAbove(n: Node, key: Path, sibling: Node)
    requires key != [] && WellFormed(n, |key|) && Child(n, key[0]).Some?
    requires Shows(Child(n, key[0]).value, key[1..], sibling)
    ensures Shows(n, key, sibling)
  {
    GetByChild(n, key);
    ProofByChild(n, key);
    var below := Child(n, key[0]).value;
    if |Proof(below, key[1..])| == 1 && !n.Branch? && !below.Branch? {
      assert n.path == [n.path[0]] + below.path;
    }
  }

  /** A proof yields potential child nodes exactly if it shows its key to be absent and does not end in
      a branch. */
  lemma {:induction false} PotentialOfProof(n: Node, key: Path)
    ensures var last := Proof(n, key)[|Proof(n, key)| - 1];
            PotentialChildNodes(Proof(n, key), key) ==
            if Get(n, key).Some? || last.Branch? then None else Some(Suffixes(last))
  {
    LookupWithProof(Index(Proof(n, key)), n, key);
  }

  /** The potential child nodes of a key are exactly the shortened forms of the last node of its proof
      of absence. */
  lemma {:induction false} PotentialExactly(t: Tree, key: Path, n: Node)
    ensures n in Potential(ProofTree(t, key), key) <==> t.Some? && Shows(t.value, key, n)
  {
    if t.Some? {
      PotentialOfProof(t.value, key);
    }
  }

  /** The theorem behind get_potential_child_nodes: whatever trie the block leaves, if at the
      place where the branch collapsed there is still only its sibling, a leaf or an extension,
      then the deleted key's exclusion proof yields the sibling exactly as it was. */
  lemma {:induction false} SiblingAmongPotential(t: Tree, key: Path, h: Hidden)
    requires WellFormedTree(t, |key|)
    requires |h.at| < |key| && h.at <= key && h.slot != key[|h.at|]
    requires Sub(t, h.at) == Some(Graft([h.slot], h.digest.preimage)) && !h.digest.preimage.Branch?
    ensures h.digest.preimage in Potential(ProofTree(t, key), key)
  {
    SubOfEmpty(h.at);
    ExclusionShows(t.value, key, h.at, h.slot, h.digest.preimage);
    PotentialExactly(t, key, h.digest.preimage);
  }

  lemma {:induction false} SubOfEmpty(at: Path)
    ensures Sub(None, at) == None
    decreases |at|
  {
    if at != [] {
      SubOfEmpty(at[1..]);
    }
  }

  /** Collapse completeness, for one deletion: the exclusion proof after the deletion yields the
      node that the collapse needs exactly if that node is not a branch. */
  lemma {:induction false} CollapseCompleteness(n: Node, key: Path)
    requires WellFormed(n, |key|) && Sibling(n, key).Some?
    ensures var sibling := Sibling(n, key).value.digest.preimage;
            sibling in Potential(ProofTree(Remove(n, key), key), key) <==> !sibling.Branch?
  {
    CollapsePosition(n, key);
    RemoveWellFormed(n, key);
    if !Sibling(n, key).value.digest.preimage.Branch? {
      SiblingAmongPotential(Remove(n, key), key, Sibling(n, key).value);
    }
  }
}
