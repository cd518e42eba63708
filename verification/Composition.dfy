/** Counters over the transactions of a range of blocks, and the ranked lists made from them. */
module Composition {
  import opened Options
  import opened Lists
  import opened MapSum

  datatype TxType = Legacy | Eip2930 | Eip1559 | Eip4844 | Eip7702 | FeeToken | Privileged

  /** A transaction without a recipient creates a contract. */
  datatype Tx = Tx(txType: TxType, to: Option<nat>, data: seq<nat>, value: nat, gasLimit: nat)

  datatype Block = Block(gasUsed: nat, gasLimit: nat, transactions: seq<Tx>)

  type Counts<K> = map<K, nat>

  datatype Category = ContractCreation | ContractCall | EthTransfer | ZeroValueTransfer

  function CategoryOf(tx: Tx): Category {
    if tx.to.None? then ContractCreation
    else if |tx.data| >= 4 then ContractCall
    else if tx.value > 0 then EthTransfer
    else ZeroValueTransfer
  }

  function Bump<K>(counts: Counts<K>, name: K, amount: nat): Counts<K> {
    counts[name := amount + if name in counts then counts[name] else 0]
  }

  // ------------------------------------------------------- counting, in terms of a list

  /** The counts of a list of names, each with what it adds. */
  function Tally<K>(items: seq<(K, nat)>): Counts<K> {
    if items == [] then map[]
    else Bump(Tally(items[..|items| - 1]), items[|items| - 1].0, items[|items| - 1].1)
  }

  function Total<K>(items: seq<(K, nat)>): nat {
    if items == [] then 0 else Total(items[..|items| - 1]) + items[|items| - 1].1
  }

  lemma {:induction false} TallySum<K>(items: seq<(K, nat)>)
    ensures Sum(Tally(items)) == Total(items)
  {
    if items == [] {
      assert Sum<K>(map[]) == 0;
    } else {
      var init, last := items[..|items| - 1], items[|items| - 1];
      TallySum(init);
      var n := if last.0 in Tally(init) then Tally(init)[last.0] else 0;
      SumUpdate(Tally(init), last.0, last.1 + n);
    }
  }

  // ---------------------------------------------------- what each counter is a tally of

  /** The naming of destinations and selectors. */
  datatype Naming = Naming(destination: nat -> string, selector: seq<nat> -> string) {
    function Destination(address: nat): string {
      destination(address)
    }

    function Selector(data: seq<nat>): string
      requires |data| >= 4
    {
      selector(data[..4])
    }
  }

  function Types(txs: seq<Tx>): seq<(TxType, nat)> {
    if txs == [] then [] else Types(txs[..|txs| - 1]) + [(txs[|txs| - 1].txType, 1)]
  }

  function Categories(txs: seq<Tx>): seq<(Category, nat)> {
    if txs == [] then [] else Categories(txs[..|txs| - 1]) + [(CategoryOf(txs[|txs| - 1]), 1)]
  }

  function Destinations(naming: Naming, txs: seq<Tx>): seq<(string, nat)> {
    if txs == [] then []
    else
      var tx := txs[|txs| - 1];
      Destinations(naming, txs[..|txs| - 1]) + if tx.to.Some? then [(naming.Destination(tx.to.value), 1)] else []
  }

  /** The selector of every contract call, counted once or by the call's gas limit. */
  function Selectors(naming: Naming, txs: seq<Tx>, byGas: bool): seq<(string, nat)> {
    if txs == [] then []
    else
      var tx := txs[|txs| - 1];
      Selectors(naming, txs[..|txs| - 1], byGas) +
      if CategoryOf(tx) == ContractCall then [(naming.Selector(tx.data), if byGas then tx.gasLimit else 1)] else []
  }

  function CountOf<K>(counts: Counts<K>, name: K): nat {
    if name in counts then counts[name] else 0
  }

  /** Types and categories each add up to all transactions. */
  lemma {:induction false} EveryTxHasTypeAndCategory(txs: seq<Tx>)
    ensures Total(Types(txs)) == |txs| && Total(Categories(txs)) == |txs|
  {
    if txs != [] {
      var init, tx := txs[..|txs| - 1], txs[|txs| - 1];
      EveryTxHasTypeAndCategory(init);
      TotalAppend(Types(init), (tx.txType, 1));
      TotalAppend(Categories(init), (CategoryOf(tx), 1));
    }
  }

  /** Destinations miss exactly the creations. */
  lemma {:induction false} DestinationsMissCreations(naming: Naming, txs: seq<Tx>)
    ensures Total(Destinations(naming, txs)) + CountOf(Tally(Categories(txs)), ContractCreation) == |txs|
  {
    if txs != [] {
      var init, tx := txs[..|txs| - 1], txs[|txs| - 1];
      DestinationsMissCreations(naming, init);
      TallyAppend(Categories(init), (CategoryOf(tx), 1));
      if tx.to.Some? {
        TotalAppend(Destinations(naming, init), (naming.Destination(tx.to.value), 1));
      } else {
        assert Destinations(naming, txs) == Destinations(naming, init);
      }
    }
  }

  /** Selectors are counted exactly for the contract calls. */
  lemma {:induction false} SelectorsAreCalls(naming: Naming, txs: seq<Tx>)
    ensures Total(Selectors(naming, txs, false)) == CountOf(Tally(Categories(txs)), ContractCall)
  {
    if txs != [] {
      var init, tx := txs[..|txs| - 1], txs[|txs| - 1];
      SelectorsAreCalls(naming, init);
      TallyAppend(Categories(init), (CategoryOf(tx), 1));
      if CategoryOf(tx) == ContractCall {
        TotalAppend(Selectors(naming, init, false), (naming.Selector(tx.data), 1));
      } else {
        assert Selectors(naming, txs, false) == Selectors(naming, init, false);
      }
    }
  }

  lemma {:induction false} TotalAppend<K>(items: seq<(K, nat)>, item: (K, nat))
    ensures Total(items + [item]) == Total(items) + item.1
  {
    assert (items + [item])[..|items|] == items;
  }

  lemma {:induction false} TallyAppend<K>(items: seq<(K, nat)>, item: (K, nat))
    ensures Tally(items + [item]) == Bump(Tally(items), item.0, item.1)
  {
    assert (items + [item])[..|items|] == items;
  }

  lemma {:induction false} TypesAppend(txs: seq<Tx>, tx: Tx)
    ensures Tally(Types(txs + [tx])) == Bump(Tally(Types(txs)), tx.txType, 1)
  {
    assert (txs + [tx])[..|txs|] == txs;
    TallyAppend(Types(txs), (tx.txType, 1));
  }

  lemma {:induction false} CategoriesAppend(txs: seq<Tx>, tx: Tx)
    ensures Tally(Categories(txs + [tx])) == Bump(Tally(Categories(txs)), CategoryOf(tx), 1)
  {
    assert (txs + [tx])[..|txs|] == txs;
    TallyAppend(Categories(txs), (CategoryOf(tx), 1));
  }

  lemma {:induction false} DestinationsAppend(naming: Naming, txs: seq<Tx>, tx: Tx)
    ensures Tally(Destinations(naming, txs + [tx])) ==
            if tx.to.None? then Tally(Destinations(naming, txs))
            else Bump(Tally(Destinations(naming, txs)), naming.Destination(tx.to.value), 1)
  {
    assert (txs + [tx])[..|txs|] == txs;
    if tx.to.Some? {
      TallyAppend(Destinations(naming, txs), (naming.Destination(tx.to.value), 1));
    } else {
      assert Destinations(naming, txs + [tx]) == Destinations(naming, txs);
    }
  }

  lemma {:induction false} SelectorsAppend(naming: Naming, txs: seq<Tx>, tx: Tx, byGas: bool)
    ensures Tally(Selectors(naming, txs + [tx], byGas)) ==
            if CategoryOf(tx) != ContractCall then Tally(Selectors(naming, txs, byGas))
            else Bump(Tally(Selectors(naming, txs, byGas)), naming.Selector(tx.data), if byGas then tx.gasLimit else 1)
  {
    assert (txs + [tx])[..|txs|] == txs;
    if CategoryOf(tx) == ContractCall {
      TallyAppend(Selectors(naming, txs, byGas), (naming.Selector(tx.data), if byGas then tx.gasLimit else 1));
    } else {
      assert Selectors(naming, txs + [tx], byGas) == Selectors(naming, txs, byGas);
    }
  }

  // ------------------------------------------------- what a counter says about the transactions

  /** The sum of what each transaction weighs; how many there are, if each weighs one or nothing. */
  function SumOver(txs: seq<Tx>, weight: Tx -> nat): nat {
    if txs == [] then 0 else SumOver(txs[..|txs| - 1], weight) + weight(txs[|txs| - 1])
  }

  lemma {:induction false} SumAppend(txs: seq<Tx>, tx: Tx, weight: Tx -> nat)
    ensures SumOver(txs + [tx], weight) == SumOver(txs, weight) + weight(tx)
  {
    assert (txs + [tx])[..|txs|] == txs;
  }

  lemma {:induction false} InitAndLast(txs: seq<Tx>)
    requires txs != []
    ensures txs == txs[..|txs| - 1] + [txs[|txs| - 1]]
  {
  }

  lemma {:induction false} AfterBump<K>(counts: Counts<K>, name: K, amount: nat, other: K)
    ensures CountOf(Bump(counts, name, amount), other) == CountOf(counts, other) + if other == name then amount else 0
  {
  }

  function OfType(t: TxType): Tx -> nat {
    (tx: Tx) => if tx.txType == t then 1 else 0
  }

  lemma {:induction false} TypeCounted(txs: seq<Tx>, t: TxType)
    ensures CountOf(Tally(Types(txs)), t) == SumOver(txs, OfType(t))
  {
    if txs != [] {
      var init, tx := txs[..|txs| - 1], txs[|txs| - 1];
      TypeCounted(init, t);
      TypesAppend(init, tx);
      AfterBump(Tally(Types(init)), tx.txType, 1, t);
      SumAppend(init, tx, OfType(t));
      InitAndLast(txs);
    }
  }

  /** Without a recipient a contract is created; with one, four bytes of data are a call, and otherwise
      it depends on the value. */
  predicate Falls(tx: Tx, c: Category) {
    match c
    case ContractCreation => tx.to == None
    case ContractCall => tx.to != None && 4 <= |tx.data|
    case EthTransfer => tx.to != None && |tx.data| < 4 && 0 < tx.value
    case ZeroValueTransfer => tx.to != None && |tx.data| < 4 && tx.value == 0
  }

  function OfCategory(c: Category): Tx -> nat {
    (tx: Tx) => if Falls(tx, c) then 1 else 0
  }

  lemma {:induction false} CategoryCounted(txs: seq<Tx>, c: Category)
    ensures CountOf(Tally(Categories(txs)), c) == SumOver(txs, OfCategory(c))
  {
    if txs != [] {
      var init, tx := txs[..|txs| - 1], txs[|txs| - 1];
      CategoryCounted(init, c);
      CategoriesAppend(init, tx);
      AfterBump(Tally(Categories(init)), CategoryOf(tx), 1, c);
      SumAppend(init, tx, OfCategory(c));
      InitAndLast(txs);
    }
  }

  function To(naming: Naming, name: string): Tx -> nat {
    (tx: Tx) => if tx.to.Some? && naming.destination(tx.to.value) == name then 1 else 0
  }

  lemma {:induction false} DestinationCounted(naming: Naming, txs: seq<Tx>, name: string)
    ensures CountOf(Tally(Destinations(naming, txs)), name) == SumOver(txs, To(naming, name))
  {
    if txs != [] {
      var init, tx := txs[..|txs| - 1], txs[|txs| - 1];
      DestinationCounted(naming, init, name);
      DestinationsAppend(naming, init, tx);
      if tx.to.Some? {
        AfterBump(Tally(Destinations(naming, init)), naming.Destination(tx.to.value), 1, name);
      }
      SumAppend(init, tx, To(naming, name));
      InitAndLast(txs);
    }
  }

  /** A call weighs one, or the gas that it may use. */
  function CallWeight(naming: Naming, tx: Tx, name: string, byGas: bool): nat {
    if tx.to.Some? && 4 <= |tx.data| && naming.selector(tx.data[..4]) == name
    then (if byGas then tx.gasLimit else 1)
    else 0
  }

  function Calling(naming: Naming, name: string, byGas: bool): Tx -> nat {
    (tx: Tx) => CallWeight(naming, tx, name, byGas)
  }

  lemma {:induction false} SelectorCounted(naming: Naming, txs: seq<Tx>, byGas: bool, name: string)
    ensures CountOf(Tally(Selectors(naming, txs, byGas)), name) == SumOver(txs, Calling(naming, name, byGas))
  {
    if txs != [] {
      var init, tx := txs[..|txs| - 1], txs[|txs| - 1];
      SelectorCounted(naming, init, byGas, name);
      SelectorsAppend(naming, init, tx, byGas);
      if CategoryOf(tx) == ContractCall {
        var amount := if byGas then tx.gasLimit else 1;
        AfterBump(Tally(Selectors(naming, init, byGas)), naming.Selector(tx.data), amount, name);
      }
      SumAppend(init, tx, Calling(naming, name, byGas));
      InitAndLast(txs);
    }
  }

  // --------------------------------------------------------------------- the counters

  class BlockCompositionStats {
    const naming: Naming
    var destinations: Counts<string>
    var selectorCount: Counts<string>
    var selectorByGas: Counts<string>
    var txTypeCount: Counts<TxType>
    var callCategoryCount: Counts<Category>
    var totalGasUsed: nat
    var totalGasLimit: nat
    var totalTxCount: nat
    var blockCount: nat
    ghost var seen: seq<Tx>

    ghost predicate TypesTallied(txs: seq<Tx>)
      reads `txTypeCount
    {
      txTypeCount == Tally(Types(txs))
    }

    ghost predicate CategoriesTallied(txs: seq<Tx>)
      reads `callCategoryCount
    {
      callCategoryCount == Tally(Categories(txs))
    }

    ghost predicate DestinationsTallied(txs: seq<Tx>)
      reads `destinations
    {
      destinations == Tally(Destinations(naming, txs))
    }

    ghost predicate SelectorsTallied(txs: seq<Tx>)
      reads `selectorCount
    {
      selectorCount == Tally(Selectors(naming, txs, false))
    }

    ghost predicate GasTallied(txs: seq<Tx>)
      reads `selectorByGas
    {
      selectorByGas == Tally(Selectors(naming, txs, true))
    }

    /** Every map is the tally of what it counts over the transactions seen. */
    ghost predicate Tallied()
      reads this
    {
      TypesTallied(seen) && CategoriesTallied(seen) && DestinationsTallied(seen) && SelectorsTallied(seen) &&
        GasTallied(seen)
    }

    ghost predicate Valid()
      reads this
    {
      Tallied() && totalTxCount == |seen|
    }

    constructor (naming: Naming)
      ensures Valid() && seen == [] && this.naming == naming && blockCount == 0
    {
      this.naming := naming;
      destinations, selectorCount, selectorByGas, txTypeCount, callCategoryCount := map[], map[], map[], map[], map[];
      totalGasUsed, totalGasLimit, totalTxCount, blockCount := 0, 0, 0, 0;
      seen := [];
    }

    /** The part of ProcessTx that concerns calls only. */
    method CountCall(tx: Tx)
      requires DestinationsTallied(seen) && SelectorsTallied(seen) && GasTallied(seen)
      modifies this`destinations, this`selectorCount, this`selectorByGas
      ensures DestinationsTallied(seen + [tx]) && SelectorsTallied(seen + [tx]) && GasTallied(seen + [tx])
    {
      DestinationsAppend(naming, seen, tx);
      SelectorsAppend(naming, seen, tx, false);
      SelectorsAppend(naming, seen, tx, true);
      if tx.to.Some? {
        var destination := naming.Destination(tx.to.value);
        destinations := Bump(destinations, destination, 1);
        if |tx.data| >= 4 {
          var selector := naming.Selector(tx.data);
          selectorCount := Bump(selectorCount, selector, 1);
          selectorByGas := Bump(selectorByGas, selector, tx.gasLimit);
        }
      }
    }

    method ProcessTx(tx: Tx)
      requires Tallied()
      modifies this`destinations, this`selectorCount, this`selectorByGas, this`txTypeCount,
               this`callCategoryCount, this`seen
      ensures Tallied() && seen == old(seen) + [tx]
    {
      ghost var txs := seen + [tx];
      txTypeCount := Bump(txTypeCount, tx.txType, 1);
      assert TypesTallied(txs) by { TypesAppend(seen, tx); }
      var category :=
        match tx.to
        case None => ContractCreation
        case Some(_) =>
          if |tx.data| >= 4 then ContractCall
          else if tx.value > 0 then EthTransfer
          else ZeroValueTransfer;
      callCategoryCount := Bump(callCategoryCount, category, 1);
      assert CategoriesTallied(txs) by { CategoriesAppend(seen, tx); }
      CountCall(tx);
      seen := seen + [tx];
    }

    method ProcessTxs(txs: seq<Tx>)
      requires Tallied()
      modifies this`destinations, this`selectorCount, this`selectorByGas, this`txTypeCount,
               this`callCategoryCount, this`seen
      ensures Tallied() && seen == old(seen) + txs
    {
      for i := 0 to |txs|
        invariant Tallied() && seen == old(seen) + txs[..i]
      {
        TakeNext(old(seen), txs, i);
        ProcessTx(txs[i]);
      }
      assert txs[..|txs|] == txs;
    }

    method ProcessBlock(block: Block)
      requires Valid()
      modifies this
      ensures Valid() && seen == old(seen) + block.transactions
      ensures totalGasUsed == old(totalGasUsed) + block.gasUsed && totalGasLimit == old(totalGasLimit) + block.gasLimit
      ensures blockCount == old(blockCount) + 1
    {
      totalGasUsed := totalGasUsed + block.gasUsed;
      totalGasLimit := totalGasLimit + block.gasLimit;
      totalTxCount := totalTxCount + |block.transactions|;
      blockCount := blockCount + 1;
      ProcessTxs(block.transactions);
    }

    /** What each counter says about the transactions seen. */
    lemma {:induction false} Counts(t: TxType, c: Category, name: string)
      requires Valid()
      ensures CountOf(txTypeCount, t) == SumOver(seen, OfType(t))
      ensures CountOf(callCategoryCount, c) == SumOver(seen, OfCategory(c))
      ensures CountOf(destinations, name) == SumOver(seen, To(naming, name))
      ensures CountOf(selectorCount, name) == SumOver(seen, Calling(naming, name, false))
      ensures CountOf(selectorByGas, name) == SumOver(seen, Calling(naming, name, true))
    {
      TypeCounted(seen, t);
      CategoryCounted(seen, c);
      DestinationCounted(naming, seen, name);
      SelectorCounted(naming, seen, false, name);
      SelectorCounted(naming, seen, true, name);
    }

    /** What every reader of the report relies on. */
    lemma {:induction false} Adds()
      requires Valid()
      ensures Sum(txTypeCount) == Sum(callCategoryCount) == totalTxCount
      ensures Sum(destinations) + CountOf(callCategoryCount, ContractCreation) == totalTxCount
      ensures Sum(selectorCount) == CountOf(callCategoryCount, ContractCall)
    {
      EveryTxHasTypeAndCategory(seen);
      DestinationsMissCreations(naming, seen);
      SelectorsAreCalls(naming, seen);
      TallySum(Types(seen));
      TallySum(Categories(seen));
      TallySum(Destinations(naming, seen));
      TallySum(Selectors(naming, seen, false));
    }
  }

  // ------------------------------------------------------------------------ rankings

  type Ranking = seq<(string, nat)>

  predicate Descending(v: Ranking) {
    forall i, j :: 0 <= i < j < |v| ==> v[i].1 >= v[j].1
  }

  method InsertDescending(v: Ranking, item: (string, nat)) returns (w: Ranking)
    requires Descending(v)
    ensures Descending(w) && multiset(w) == multiset(v) + multiset{item}
  {
    var i := 0;
    while i < |v| && v[i].1 >= item.1
      invariant i <= |v| && forall j :: 0 <= j < i ==> v[j].1 >= item.1
    {
      i := i + 1;
    }
    InsertAt(v, i, item);
    w := v[..i] + [item] + v[i..];
  }

  /** The entries of a map, largest first. */
  method SortedDesc(counts: Counts<string>) returns (v: Ranking)
    ensures Descending(v) && multiset(v) == multiset(counts.Items)
  {
    v := [];
    var pending := counts.Items;
    while pending != {}
      invariant pending <= counts.Items && Descending(v) && multiset(v) == multiset(counts.Items - pending)
      decreases pending
    {
      var item :| item in pending;
      v := InsertDescending(v, item);
      assert counts.Items - (pending - {item}) == (counts.Items - pending) + {item};
      pending := pending - {item};
    }
  }

  /** The first entries, and one entry for all the others together if they count anything. */
  method TruncateTo(v: Ranking, size: nat) returns (res: Ranking)
    ensures var shown := if size < |v| then size else |v|;
            && var others := Total(v) - Total(v[..shown]);
               res == v[..shown] + if others > 0 then [("other", others)] else []
    ensures Total(res) == Total(v) && |res| <= size + 1
    ensures Descending(v) ==> forall i, j :: 0 <= i < |res| && i < size <= j < |v| ==> res[i].1 >= v[j].1
  {
    var included := 0;
    res := [];
    var shown := if size < |v| then size else |v|;
    for i := 0 to shown
      invariant res == v[..i] && included == Total(v[..i])
    {
      included := included + v[i].1;
      res := res + [v[i]];
      assert v[..i + 1][..i] == v[..i];
    }
    var total := 0;
    for i := 0 to |v|
      invariant total == Total(v[..i])
    {
      total := total + v[i].1;
      assert v[..i + 1][..i] == v[..i];
    }
    assert v[..|v|] == v;
    TotalSplit(v, shown);
    var other := if total >= included then total - included else 0;
    if other > 0 {
      TotalAppend(res, ("other", other));
      res := res + [("other", other)];
    }
  }

  lemma {:induction false} TotalSplit(v: Ranking, k: nat)
    requires k <= |v|
    ensures Total(v[..k]) <= Total(v)
    decreases |v|
  {
    if k < |v| {
      TotalSplit(v[..|v| - 1], k);
      assert v[..|v| - 1][..k] == v[..k];
    } else {
      assert v[..k] == v;
    }
  }
}
