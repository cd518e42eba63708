/** The loop that replays a range of blocks, or follows the chain without end.  The chain's head is
    given as the list of answers to successive requests for it; a run without end is observed until
    the answers are used up. */
module ReplayLoop {
  import opened Options

  /** Finished: the loop guard failed.  Waiting: the answers ran out while waiting for the head. */
  datatype Outcome = Finished | FromAfterTo | Waiting

  predicate Wanted(n: nat, ethProofs: bool) {
    !ethProofs || n % 100 == 0
  }

  /** The wanted blocks from a first one on and below an end. */
  function WantedIn(first: nat, end: nat, ethProofs: bool): seq<nat> {
    if end <= first then []
    else WantedIn(first, end - 1, ethProofs) + if Wanted(end - 1, ethProofs) then [end - 1] else []
  }

  /** These are all the wanted blocks, once each and in ascending order. */
  lemma {:induction false} WantedExactly(first: nat, end: nat, ethProofs: bool)
    ensures forall n :: n in WantedIn(first, end, ethProofs) <==> first <= n < end && (ethProofs ==> n % 100 == 0)
    ensures forall i, j :: 0 <= i < j < |WantedIn(first, end, ethProofs)| ==>
              WantedIn(first, end, ethProofs)[i] < WantedIn(first, end, ethProofs)[j]
    decreases end
  {
    if first < end {
      WantedExactly(first, end - 1, ethProofs);
      var w := WantedIn(first, end - 1, ethProofs);
      assert forall i :: 0 <= i < |w| ==> w[i] in w;
    }
  }

  predicate NonDecreasing(heads: seq<nat>) {
    forall i, j :: 0 <= i <= j < |heads| ==> heads[i] <= heads[j]
  }

  /** Answer i is the first block of interest among those not yet used. */
  predicate FirstWanted(heads: seq<nat>, asked: nat, ethProofs: bool, i: nat) {
    asked <= i < |heads| && Wanted(heads[i], ethProofs) && forall j :: asked <= j < i ==> !Wanted(heads[j], ethProofs)
  }

  predicate NoneWanted(heads: seq<nat>, asked: nat, ethProofs: bool) {
    forall i :: asked <= i < |heads| ==> !Wanted(heads[i], ethProofs)
  }

  /** Asks for the head until it is a block of interest. */
  method FetchLatestBlockNumber(heads: seq<nat>, asked: nat, ethProofs: bool)
    returns (latest: Option<nat>, nowAsked: nat)
    requires asked <= |heads|
    ensures asked <= nowAsked <= |heads|
    ensures latest.Some? ==> asked < nowAsked && FirstWanted(heads, asked, ethProofs, nowAsked - 1)
    ensures latest.Some? ==> latest.value == heads[nowAsked - 1]
    ensures latest.None? <==> NoneWanted(heads, asked, ethProofs)
  {
    nowAsked := asked;
    if nowAsked == |heads| {
      return None, nowAsked;
    }
    var latestBlockNumber := heads[nowAsked];
    nowAsked := nowAsked + 1;
    while ethProofs && latestBlockNumber % 100 != 0
      invariant asked < nowAsked <= |heads| && latestBlockNumber == heads[nowAsked - 1]
      invariant forall i :: asked <= i < nowAsked - 1 ==> !Wanted(heads[i], ethProofs)
      decreases |heads| - nowAsked
    {
      if nowAsked == |heads| {
        return None, nowAsked;
      }
      latestBlockNumber := heads[nowAsked];
      nowAsked := nowAsked + 1;
    }
    latest := Some(latestBlockNumber);
  }

  /** The end of a run without end: it has replayed up to the highest block of interest it has heard of. */
  ghost predicate UpToHighest(heads: seq<nat>, ethProofs: bool, next: nat) {
    && (forall i :: 0 <= i < |heads| && Wanted(heads[i], ethProofs) ==> heads[i] < next)
    && (exists i :: 0 <= i < |heads| && Wanted(heads[i], ethProofs) && heads[i] + 1 == next)
  }

  /** Where the run starts: at the given block, or else at the first block of interest that is the head;
      used says how many answers for the head have been used for that. */
  ghost predicate StartsAt(from: Option<nat>, ethProofs: bool, heads: seq<nat>, first: nat, used: nat) {
    match from
    case Some(given) => first == given && used == 0
    case None => 0 < used && FirstWanted(heads, 0, ethProofs, used - 1) && first == heads[used - 1]
  }

  /** Where it is to go at first: to the given block, or else to the next block of interest that is the
      head. */
  ghost predicate GoesTo(to: Option<nat>, ethProofs: bool, heads: seq<nat>, last: nat, used: nat) {
    match to
    case Some(given) => last == given
    case None => exists i: nat :: FirstWanted(heads, used, ethProofs, i) && last == heads[i]
  }

  /** The start and the first goal of a run: what is given, and else the first blocks of interest among the
      answers, the start's first. */
  ghost predicate Begins(from: Option<nat>, to: Option<nat>, ethProofs: bool, heads: seq<nat>, first: nat, last: nat) {
    exists used: nat :: StartsAt(from, ethProofs, heads, first, used) && GoesTo(to, ethProofs, heads, last, used)
  }

  /** The answers are used up before the run can start. */
  ghost predicate NeverStarts(from: Option<nat>, to: Option<nat>, ethProofs: bool, heads: seq<nat>) {
    || (from.None? && NoneWanted(heads, 0, ethProofs))
    || (to.None? && NowhereToGo(from, ethProofs, heads))
  }

  ghost predicate NowhereToGo(from: Option<nat>, ethProofs: bool, heads: seq<nat>) {
    exists first, used :: StartsAt(from, ethProofs, heads, first, used) && NoneWanted(heads, used, ethProofs)
  }

  /** Asks for what is not given: where to start, and where to go at first. */
  method Bounds(from: Option<nat>, to: Option<nat>, ethProofs: bool, heads: seq<nat>)
    returns (known: bool, first: nat, last: nat, asked: nat)
    ensures known <==> !NeverStarts(from, to, ethProofs, heads)
    ensures known ==> asked <= |heads| && Begins(from, to, ethProofs, heads, first, last)
    ensures known ==> forall i :: 0 <= i < asked && Wanted(heads[i], ethProofs) ==>
            heads[i] == first || heads[i] == last
    ensures known && to.None? ==> 0 < asked && last == heads[asked - 1] && Wanted(last, ethProofs)
  {
    known, first, last, asked := false, 0, 0, 0;
    if from.Some? {
      first := from.value;
    } else {
      var latest, nowAsked := FetchLatestBlockNumber(heads, asked, ethProofs);
      asked := nowAsked;
      if latest.None? {
        return;
      }
      first := latest.value;
    }
    ghost var used := asked;
    assert StartsAt(from, ethProofs, heads, first, used);
    if to.Some? {
      last := to.value;
    } else {
      var latest, nowAsked := FetchLatestBlockNumber(heads, asked, ethProofs);
      asked := nowAsked;
      if latest.None? {
        return;
      }
      last := latest.value;
      assert FirstWanted(heads, used, ethProofs, nowAsked - 1);
    }
    assert GoesTo(to, ethProofs, heads, last, used);
    known := true;
  }

  /** The goal is the last answer used, and no block of interest heard of lies beyond it that has not been
      dealt with. */
  ghost predicate Heading(heads: seq<nat>, ethProofs: bool, asked: nat, goal: nat, next: nat) {
    && 0 < asked <= |heads| && goal == heads[asked - 1] && Wanted(goal, ethProofs)
    && forall i :: 0 <= i < asked && Wanted(heads[i], ethProofs) ==> heads[i] < next || heads[i] <= goal
  }

  /** The block dealt with last is a block of interest that was the head. */
  ghost predicate ReachedHead(heads: seq<nat>, ethProofs: bool, asked: nat, next: nat)
    requires asked <= |heads|
  {
    exists i :: 0 <= i < asked && Wanted(heads[i], ethProofs) && heads[i] + 1 == next
  }

  /** Asks for the head until it lies beyond what has been dealt with. */
  method FollowHead(heads: seq<nat>, ethProofs: bool, asked: nat, goal: nat, next: nat)
    returns (known: bool, newGoal: nat, nowAsked: nat)
    requires Heading(heads, ethProofs, asked, goal, next) && ReachedHead(heads, ethProofs, asked, next)
    requires next > goal
    ensures known ==> next <= newGoal && asked < nowAsked && Heading(heads, ethProofs, nowAsked, newGoal, next)
    ensures !known ==> UpToHighest(heads, ethProofs, next)
  {
    newGoal, nowAsked := goal, asked;
    while next > newGoal
      invariant Heading(heads, ethProofs, nowAsked, newGoal, next) && ReachedHead(heads, ethProofs, nowAsked, next)
      invariant asked <= nowAsked && (asked == nowAsked ==> newGoal == goal)
      decreases |heads| - nowAsked
    {
      var latest, more := FetchLatestBlockNumber(heads, nowAsked, ethProofs);
      if latest.None? {
        return false, newGoal, nowAsked;
      }
      newGoal, nowAsked := latest.value, more;
    }
    known := true;
  }

  /** There is only one way to begin. */
  lemma {:induction false} BeginsOnce(from: Option<nat>, to: Option<nat>, ethProofs: bool, heads: seq<nat>,
      first: nat, last: nat, other: nat, otherLast: nat)
    requires Begins(from, to, ethProofs, heads, first, last) && Begins(from, to, ethProofs, heads, other, otherLast)
    ensures first == other && last == otherLast
  {
  }

  /** The whole command for a range.  next is the first block not yet dealt with; the start and the
      first goal are determined by what is given and by the answers for the head. */
  method Blocks(from: Option<nat>, to: Option<nat>, endless: bool, ethProofs: bool, heads: seq<nat>)
    returns (outcome: Outcome, replayed: seq<nat>, first: nat, last: nat, next: nat)
    requires from.None? ==> endless
    requires endless ==> to.None?
    ensures NeverStarts(from, to, ethProofs, heads) ==> outcome == Waiting && replayed == []
    ensures !NeverStarts(from, to, ethProofs, heads) ==>
              && Begins(from, to, ethProofs, heads, first, last)
              && outcome == if last < first then FromAfterTo else if endless then Waiting else Finished
    ensures outcome == FromAfterTo ==> replayed == []
    ensures outcome == FromAfterTo && NonDecreasing(heads) ==> from.Some?
    ensures outcome == Finished ==> next == last + 1 && replayed == WantedIn(first, next, ethProofs)
    ensures outcome == Waiting && !NeverStarts(from, to, ethProofs, heads) ==>
              UpToHighest(heads, ethProofs, next) && replayed == WantedIn(first, next, ethProofs)
  {
    var known, asked;
    known, first, last, asked := Bounds(from, to, ethProofs, heads);
    replayed, next := [], first;
    if !known {
      return Waiting, [], first, last, first;
    }
    if first > last {
      return FromAfterTo, [], first, last, first;
    }

    var goal := last;
    while next <= goal
      invariant first <= next && replayed == WantedIn(first, next, ethProofs)
      invariant !endless ==> next <= goal + 1 && goal == last
      invariant endless ==> next <= goal && Heading(heads, ethProofs, asked, goal, next)
      decreases if endless then |heads| - asked else 0, goal - next
    {
      if ethProofs && next % 100 != 0 {
        next := next + 1;
        if endless && next > goal {
          // The head is a multiple of 100 here and next was not, so next cannot have passed it.
          assert false;
        }
        continue;
      }

      replayed := replayed + [next];
      next := next + 1;

      if endless && next > goal {
        var more;
        more, goal, asked := FollowHead(heads, ethProofs, asked, goal, next);
        if !more {
          return Waiting, replayed, first, last, next;
        }
      }
    }
    outcome := Finished;
  }
}
