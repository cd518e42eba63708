/** Facts about lists. */
module Lists {

  lemma {:induction false} TakeNext<T>(start: seq<T>, items: seq<T>, i: nat)
    requires i < |items|
    ensures (start + items[..i]) + [items[i]] == start + items[..i + 1]
  {
  }

  lemma {:induction false} InsertAt<T>(items: seq<T>, i: nat, x: T)
    requires i <= |items|
    ensures multiset(items[..i] + [x] + items[i..]) == multiset(items) + multiset{x}
  {
    assert items == items[..i] + items[i..];
  }

  lemma {:induction false} SplitLast<T>(items: seq<T>, more: seq<T>)
    requires more != []
    ensures more == more[..|more| - 1] + [more[|more| - 1]]
    ensures items + more == (items + more[..|more| - 1]) + [more[|more| - 1]]
  {
  }
}
