/** The laws of a complete trie.  Every proof goes one nibble at a time, through Child. */
module TrieLaws {
  import opened Options
  import opened Trie

  // -------------------------------------------------------------- one nibble at a time

  lemma {:induction false} ChildWellFormed(n: Node, len: nat, x: Nibble)
    requires 0 < len && WellFormed(n, len)
    ensures WellFormedTree(Child(n, x), len - 1)
    ensures Child(n, x).Some? && !n.Branch? && Child(n, x).value.Branch? ==>
            n == Extension([x], Keccak(Child(n, x).value))
  {
  }

  lemma {:induction false} GetByChild(n: Node, key: Path)
    requires key != [] && WellFormed(n, |key|)
    ensures Get(n, key) == GetTree(Child(n, key[0]), key[1..])
  {
    if !n.Branch? {
      assert n.path <= key <==> n.path[0] == key[0] && n.path[1..] <= key[1..];
      if n.Leaf? {
        assert n.path == key <==> n.path[0] == key[0] && n.path[1..] == key[1..] by {
          assert n.path == [n.path[0]] + n.path[1..] && key == [key[0]] + key[1..];
        }
      } else if n.path <= key {
        assert key[|n.path|..] == key[1..][|n.path| - 1..];
      }
    }
  }

  lemma {:induction false} GraftChild(prefix: Path, n: Node, len: nat)
    requires prefix != [] && WellFormed(n, len)
    ensures WellFormed(Graft(prefix, n), len + |prefix|)
    ensures Child(Graft(prefix, n), prefix[0]) == Some(if |prefix| == 1 then n else Graft(prefix[1..], n))
    ensures forall y: Nibble :: y != prefix[0] ==> Child(Graft(prefix, n), y) == None
  {
    if !n.Branch? {
      assert (prefix + n.path)[1..] == prefix[1..] + n.path;
      if |prefix| == 1 {
        assert prefix[1..] + n.path == n.path;
      }
    }
  }

  /** A node is determined by what lies below each nibble. */
  lemma {:induction false} Reassemble(n: Node, len: nat, x: Nibble)
    requires 0 < len && WellFormed(n, len) && Child(n, x).Some?
    ensures n.Branch? || n == Graft([x], Child(n, x).value)
    ensures !n.Branch? ==> forall y: Nibble :: y != x ==> Child(n, y) == None
    ensures n.Branch? ==> exists y: Nibble :: y != x && Child(n, y).Some?
  {
    if n.Branch? {
      var live := Live(n.children);
      var y := if live[0] == x then live[1] else live[0];
      assert y != x && Child(n, y).Some?;
    } else {
      assert n.path == [x] + n.path[1..];
    }
  }

  lemma {:induction false} Inhabited(n: Node, len: nat) returns (key: Path)
    requires WellFormed(n, len)
    ensures |key| == len && Get(n, key).Some?
    decreases len
  {
    if len == 0 {
      key := [];
    } else {
      var x := if n.Branch? then Live(n.children)[0] else n.path[0];
      ChildWellFormed(n, len, x);
      var below := Inhabited(Child(n, x).value, len - 1);
      key := [x] + below;
      GetByChild(n, key);
    }
  }

  /** Two well-formed tries with the same contents are the same trie, so the root is a function
      of the contents alone. */
  lemma {:induction false} Canonical(a: Tree, b: Tree, len: nat)
    requires WellFormedTree(a, len) && WellFormedTree(b, len)
    requires forall key: Path :: |key| == len ==> GetTree(a, key) == GetTree(b, key)
    ensures a == b
    decreases len
  {
    if a.None? || b.None? {
      SameEmptiness(a, b, len);
      SameEmptiness(b, a, len);
    } else if len == 0 {
      assert GetTree(a, []) == GetTree(b, []);
    } else {
      forall x: Nibble ensures Child(a.value, x) == Child(b.value, x) {
        SameChild(a.value, b.value, len, x);
        Canonical(Child(a.value, x), Child(b.value, x), len - 1);
      }
      SameNode(a.value, b.value, len);
    }
  }

  lemma {:induction false} SameEmptiness(a: Tree, b: Tree, len: nat)
    requires WellFormedTree(a, len)
    ensures a.Some? && b.None? ==> exists key: Path :: |key| == len && GetTree(a, key) != GetTree(b, key)
  {
    if a.Some? && b.None? {
      var key := Inhabited(a.value, len);
      assert GetTree(a, key) != GetTree(b, key);
    }
  }

  lemma {:induction false} SameChild(a: Node, b: Node, len: nat, x: Nibble)
    requires 0 < len && WellFormed(a, len) && WellFormed(b, len)
    requires forall key: Path :: |key| == len ==> GetTree(Some(a), key) == GetTree(Some(b), key)
    ensures WellFormedTree(Child(a, x), len - 1) && WellFormedTree(Child(b, x), len - 1)
    ensures forall rest: Path :: |rest| == len - 1 ==> GetTree(Child(a, x), rest) == GetTree(Child(b, x), rest)
  {
    ChildWellFormed(a, len, x);
    ChildWellFormed(b, len, x);
    forall rest: Path | |rest| == len - 1
      ensures GetTree(Child(a, x), rest) == GetTree(Child(b, x), rest)
    {
      var key := [x] + rest;
      GetByChild(a, key);
      GetByChild(b, key);
      assert GetTree(Some(a), key) == GetTree(Some(b), key);
    }
  }

  lemma {:induction false} SameNode(a: Node, b: Node, len: nat)
    requires 0 < len && WellFormed(a, len) && WellFormed(b, len)
    requires forall x: Nibble :: Child(a, x) == Child(b, x)
    ensures a == b
  {
    var x := if a.Branch? then Live(a.children)[0] else a.path[0];
    assert Child(a, x).Some?;
    Reassemble(a, len, x);
    Reassemble(b, len, x);
    if a.Branch? {
      assert b.Branch?;
      forall i | 0 <= i < 16 ensures a.children[i] == b.children[i] {
        assert Child(a, i) == Child(b, i);
      }
    }
  }

  // ---------------------------------------------------------------------------- removal

  lemma {:induction false} RemoveByChild(n: Node, key: Path)
    requires key != [] && WellFormed(n, |key|)
    ensures WellFormedTree(Remove(n, key), |key|)
    ensures forall x: Nibble :: ChildTree(Remove(n, key), x) ==
              if x == key[0] then RemoveTree(Child(n, x), key[1..]) else Child(n, x)
    ensures Remove(n, key).Some? && Remove(n, key).value.Branch? ==> n.Branch?
    ensures n.Branch? ==> Remove(n, key).Some?
    decreases n, 1
  {
    if n.Branch? {
      RemoveFromBranch(n, key);
    } else if n.Extension? && n.path <= key {
      RemoveFromExtension(n, key);
    } else if n.path[0] == key[0] {
      assert n.path == [key[0]] + n.path[1..] && key == [key[0]] + key[1..];
    }
  }

  lemma {:induction false} RemoveFromExtension(n: Node, key: Path)
    requires n.Extension? && WellFormed(n, |key|) && n.path <= key
    ensures WellFormedTree(Remove(n, key), |key|)
    ensures forall x: Nibble :: ChildTree(Remove(n, key), x) ==
              if x == key[0] then RemoveTree(Child(n, x), key[1..]) else Child(n, x)
    ensures Remove(n, key).Some? && !Remove(n, key).value.Branch?
    decreases n, 0
  {
    var rest := key[|n.path|..];
    RemoveByChild(n.child.preimage, rest);
    var below := Remove(n.child.preimage, rest).value;
    GraftChild(n.path, below, |rest|);
    if 1 < |n.path| {
      BeheadedRemove(n, key);
    } else {
      assert key[1..] == rest;
    }
  }

  lemma {:induction false} BeheadedRemove(n: Node, key: Path)
    requires n.Extension? && n.path <= key && 1 < |n.path|
    requires Remove(n.child.preimage, key[|n.path|..]).Some?
    ensures Remove(Behead(n), key[1..]) == Some(Graft(n.path[1..], Remove(n.child.preimage, key[|n.path|..]).value))
  {
    assert key[1..][|n.path| - 1..] == key[|n.path|..];
    assert n.path[1..] <= key[1..];
  }

  lemma {:induction false} RemoveFromBranch(n: Node, key: Path)
    requires n.Branch? && key != [] && WellFormed(n, |key|)
    ensures Remove(n, key).Some? && WellFormed(Remove(n, key).value, |key|)
    ensures forall x: Nibble :: ChildTree(Remove(n, key), x) ==
              if x == key[0] then RemoveTree(Child(n, x), key[1..]) else Child(n, x)
    decreases n, 0
  {
    var slot := n.children[key[0]];
    if slot.Some? {
      RemoveWellFormed(slot.value.preimage, key[1..]);
      var below := Remove(slot.value.preimage, key[1..]);
      if below.None? {
        DropChild(n, |key|, key[0]);
        assert Remove(n, key) == Collapse(n.children[key[0] := None]);
      } else {
        FillSlot(n, key[0], below.value, |key|);
        assert Remove(n, key) == Some(Branch(n.children[key[0] := Some(Keccak(below.value))]));
      }
    }
  }

  lemma {:induction false} DropChild(n: Node, len: nat, k: Nibble)
    requires n.Branch? && WellFormed(n, len) && n.children[k].Some?
    ensures var m := Collapse(n.children[k := None]);
            && m.Some? && WellFormed(m.value, len)
            && forall x: Nibble :: Child(m.value, x) == if x == k then None else Child(n, x)
  {
    var rest := n.children[k := None];
    CollapseByChild(rest, len, OtherSlot(n.children, k));
    assert forall x: Nibble :: Child(Branch(rest), x) == if x == k then None else Child(n, x);
  }

  /** Filling or refilling a slot of a branch changes what lies below that nibble only. */
  lemma {:induction false} FillSlot(n: Node, k: Nibble, below: Node, len: nat)
    requires n.Branch? && WellFormed(n, len) && WellFormed(below, len - 1)
    ensures var m := Branch(n.children[k := Some(Keccak(below))]);
            WellFormed(m, len) && forall x: Nibble :: Child(m, x) == if x == k then Some(below) else Child(n, x)
  {
    TwoOccupied(n.children[k := Some(Keccak(below))], k, OtherSlot(n.children, k));
  }

  lemma {:induction false} CollapseByChild(rest: seq<Option<Digest>>, len: nat, other: Nibble)
    requires 0 < len && |rest| == 16 && rest[other].Some?
    requires forall x: Nibble :: rest[x].Some? ==> WellFormed(rest[x].value.preimage, len - 1)
    ensures Collapse(rest).Some? && WellFormed(Collapse(rest).value, len)
    ensures forall x: Nibble :: ChildTree(Collapse(rest), x) == Child(Branch(rest), x)
  {
    var live := Live(rest);
    assert other in live;
    if |live| == 1 {
      GraftChild([other], rest[other].value.preimage, len - 1);
      forall x: Nibble | x != other ensures Slot(rest, x).None? {
        assert x !in live;
      }
    }
  }

  function OtherSlot(children: seq<Option<Digest>>, k: Nibble): (other: Nibble)
    requires |children| == 16 && 2 <= |Live(children)|
    ensures other != k && children[other].Some?
  {
    if Live(children)[0] == k then Live(children)[1] else Live(children)[0]
  }

  lemma {:induction false} TwoOccupied(children: seq<Option<Digest>>, x: Nibble, y: Nibble)
    requires |children| == 16 && x != y && children[x].Some? && children[y].Some?
    ensures 2 <= |Live(children)|
  {
    assert x in Live(children) && y in Live(children);
  }

  lemma {:induction false} RemoveWellFormed(n: Node, key: Path)
    requires WellFormed(n, |key|)
    ensures WellFormedTree(Remove(n, key), |key|)
    decreases n, 2
  {
    if key != [] {
      RemoveByChild(n, key);
    }
  }

  /** Removal forgets the removed key and nothing else. */
  lemma {:induction false} GetAfterRemove(t: Tree, key: Path, other: Path)
    requires WellFormedTree(t, |key|) && |other| == |key|
    ensures WellFormedTree(RemoveTree(t, key), |key|)
    ensures GetTree(RemoveTree(t, key), other) == if other == key then None else GetTree(t, other)
    decreases |key|
  {
    if t.Some? && key != [] {
      var k := other[0];
      RemoveByChild(t.value, key);
      GetByChild(t.value, other);
      if RemoveTree(t, key).Some? {
        GetByChild(RemoveTree(t, key).value, other);
      }
      ChildWellFormed(t.value, |key|, k);
      GetAfterRemove(Child(t.value, k), key[1..], other[1..]);
      assert key == [key[0]] + key[1..] && other == [k] + other[1..];
    }
  }

  // -------------------------------------------------------------------------- insertion

  lemma {:induction false} InsertByChild(n: Node, key: Path, value: Value)
    requires WellFormed(n, |key|)
    ensures WellFormed(Insert(n, key, value), |key|)
    ensures key != [] ==> WellFormedTree(Child(n, key[0]), |key| - 1)
    ensures key != [] ==> Child(Insert(n, key, value), key[0]) == InsertTree(Child(n, key[0]), key[1..], value)
    ensures forall x: Nibble :: key != [] && x != key[0] ==> Child(Insert(n, key, value), x) == Child(n, x)
    ensures n.Branch? ==> Insert(n, key, value).Branch?
    decreases |key|
  {
    if key != [] {
      var k := key[0];
      ChildWellFormed(n, |key|, k);
      var below := InsertTree(Child(n, k), key[1..], value).value;
      if Child(n, k).Some? {
        InsertByChild(Child(n, k).value, key[1..], value);
      }
      assert WellFormed(below, |key| - 1);
      InsertOneNibble(n, key, value, below);
    }
  }

  lemma {:induction false} InsertIntoPath(n: Node, key: Path, value: Value, below: Node)
    requires !n.Branch? && key != [] && WellFormed(n, |key|) && WellFormed(below, |key| - 1)
    requires WellFormedTree(Child(n, key[0]), |key| - 1)
    requires Some(below) == InsertTree(Child(n, key[0]), key[1..], value)
    ensures WellFormed(Insert(n, key, value), |key|)
    ensures Child(Insert(n, key, value), key[0]) == Some(below)
    ensures forall x: Nibble :: x != key[0] ==> Child(Insert(n, key, value), x) == Child(n, x)
  {
    var k := key[0];
    if n.path[0] == k {
      GraftChild([k], below, |key| - 1);
      assert Insert(n, key, value) == Graft([k], below);
    } else {
      ForkByChild(n.path[0], Behead(n), k, below, |key| - 1);
      assert Insert(n, key, value) == Fork(n.path[0], Keccak(Behead(n)), k, Keccak(below));
    }
  }

  lemma {:induction false} InsertOneNibble(n: Node, key: Path, value: Value, below: Node)
    requires key != [] && WellFormed(n, |key|) && WellFormed(below, |key| - 1)
    requires WellFormedTree(Child(n, key[0]), |key| - 1)
    requires Some(below) == InsertTree(Child(n, key[0]), key[1..], value)
    ensures WellFormed(Insert(n, key, value), |key|)
    ensures Child(Insert(n, key, value), key[0]) == Some(below)
    ensures forall x: Nibble :: x != key[0] ==> Child(Insert(n, key, value), x) == Child(n, x)
    ensures n.Branch? ==> Insert(n, key, value).Branch?
  {
    var k := key[0];
    if n.Branch? {
      assert Insert(n, key, value) == Branch(n.children[k := Some(Keccak(below))]);
      FillSlot(n, k, below, |key|);
    } else {
      InsertIntoPath(n, key, value, below);
    }
  }

  lemma {:induction false} ForkByChild(x: Nibble, a: Node, y: Nibble, b: Node, len: nat)
    requires x != y && WellFormed(a, len) && WellFormed(b, len)
    ensures WellFormed(Fork(x, Keccak(a), y, Keccak(b)), len + 1)
    ensures forall z: Nibble :: Child(Fork(x, Keccak(a), y, Keccak(b)), z) ==
              if z == x then Some(a) else if z == y then Some(b) else None
  {
    TwoOccupied(Fork(x, Keccak(a), y, Keccak(b)).children, x, y);
  }

  lemma {:induction false} GetTreeByChild(t: Tree, key: Path)
    requires key != [] && WellFormedTree(t, |key|)
    ensures WellFormedTree(ChildTree(t, key[0]), |key| - 1)
    ensures GetTree(t, key) == GetTree(ChildTree(t, key[0]), key[1..])
  {
    if t.Some? {
      GetByChild(t.value, key);
      ChildWellFormed(t.value, |key|, key[0]);
    }
  }

  lemma {:induction false} InsertTreeByChild(t: Tree, key: Path, value: Value, x: Nibble)
    requires t.Some? && key != [] && WellFormedTree(t, |key|)
    ensures WellFormedTree(InsertTree(t, key, value), |key|)
    ensures ChildTree(InsertTree(t, key, value), x) ==
            if x == key[0] then InsertTree(ChildTree(t, x), key[1..], value) else ChildTree(t, x)
  {
    InsertByChild(t.value, key, value);
  }

  /** Insertion binds the inserted key and changes no other. */
  lemma {:induction false} GetAfterInsert(t: Tree, key: Path, value: Value, other: Path)
    requires WellFormedTree(t, |key|) && |other| == |key|
    ensures WellFormedTree(InsertTree(t, key, value), |key|)
    ensures GetTree(InsertTree(t, key, value), other) == if other == key then Some(value) else GetTree(t, other)
    decreases |key|
  {
    if t.Some? && key != [] {
      assert key == [key[0]] + key[1..] && other == [other[0]] + other[1..];
      InsertTreeByChild(t, key, value, other[0]);
      GetTreeByChild(t, other);
      GetTreeByChild(InsertTree(t, key, value), other);
      GetAfterInsert(ChildTree(t, other[0]), key[1..], value, other[1..]);
    }
  }

  // --------------------------------------------------------------------------- positions

  lemma {:induction false} SubWellFormed(t: Tree, at: Path, len: nat)
    requires WellFormedTree(t, len) && |at| <= len
    ensures WellFormedTree(Sub(t, at), len - |at|)
    decreases |at|
  {
    if at != [] {
      if t.Some? {
        ChildWellFormed(t.value, len, at[0]);
      }
      SubWellFormed(ChildTree(t, at[0]), at[1..], len - 1);
    }
  }

  lemma {:induction false} GetBySub(t: Tree, at: Path, rest: Path)
    requires WellFormedTree(t, |at| + |rest|)
    ensures GetTree(t, at + rest) == GetTree(Sub(t, at), rest)
    decreases |at|
  {
    if at == [] {
      assert at + rest == rest;
    } else {
      assert (at + rest)[1..] == at[1..] + rest;
      if t.Some? {
        GetByChild(t.value, at + rest);
        ChildWellFormed(t.value, |at| + |rest|, at[0]);
      }
      GetBySub(ChildTree(t, at[0]), at[1..], rest);
    }
  }

  lemma {:induction false} SubAppend(t: Tree, at: Path, x: Nibble)
    ensures Sub(t, at + [x]) == ChildTree(Sub(t, at), x)
    decreases |at|
  {
    if at == [] {
      assert (at + [x])[1..] == [];
    } else {
      assert (at + [x])[1..] == at[1..] + [x];
      SubAppend(ChildTree(t, at[0]), at[1..], x);
    }
  }

  /** Locality: the part of a trie below a position depends only on the keys under it. */
  lemma {:induction false} SameBelow(t: Tree, u: Tree, at: Path, len: nat)
    requires WellFormedTree(t, len) && WellFormedTree(u, len) && |at| <= len
    requires forall key: Path :: |key| == len && at <= key ==> GetTree(t, key) == GetTree(u, key)
    ensures Sub(t, at) == Sub(u, at)
  {
    SubWellFormed(t, at, len);
    SubWellFormed(u, at, len);
    forall rest: Path | |rest| == len - |at|
      ensures GetTree(Sub(t, at), rest) == GetTree(Sub(u, at), rest)
    {
      GetBySub(t, at, rest);
      GetBySub(u, at, rest);
      assert at <= at + rest && |at + rest| == len;
    }
    Canonical(Sub(t, at), Sub(u, at), len - |at|);
  }
}
