/** The rate limiter of fetch_accounts: requests go out in batches of at most rps, and a batch of
    n keeps the next one away for n times the rate limit. */
module Pacing {
  /** Microseconds. */
  const SECOND: nat := 1_000_000

  function RateLimit(rps: nat): nat
    requires 0 < rps
  {
    SECOND / rps
  }

  /** The rate limit is the second shared out, rounded down. */
  lemma {:induction false} RateLimitRounds(rps: nat)
    requires 0 < rps
    ensures rps * RateLimit(rps) <= SECOND < rps * (RateLimit(rps) + 1)
    ensures RateLimit(rps) == 0 <==> SECOND < rps
  {
    var rate := RateLimit(rps);
    assert SECOND == rate * rps + SECOND % rps;
    Distribute(rate, 1, rps);
  }

  datatype Batch = Batch(start: nat, size: nat)

  /** When the batch after batch i starts, or the time now. */
  ghost function NextStart(log: seq<Batch>, i: nat, now: nat): nat {
    if i + 1 < |log| then log[i + 1].start else now
  }

  /** A log of batches after which the clock shows now. */
  ghost predicate Paced(log: seq<Batch>, now: nat, rps: nat, rate: nat) {
    && (forall i :: 0 <= i < |log| ==> log[i].size <= rps)
    && (forall i :: 0 <= i < |log| ==> log[i].start + log[i].size * rate <= NextStart(log, i, now))
  }

  /** Requests started in a window of time, both ends included. */
  ghost function Started(log: seq<Batch>, from: nat, to: nat): nat {
    if log == [] then 0
    else (if from <= log[0].start <= to then log[0].size else 0) + Started(log[1..], from, to)
  }

  lemma {:induction false} PacedTail(log: seq<Batch>, now: nat, rps: nat, rate: nat)
    requires log != [] && Paced(log, now, rps, rate)
    ensures Paced(log[1..], now, rps, rate)
  {
    var tail := log[1..];
    forall i | 0 <= i < |tail| ensures tail[i].start + tail[i].size * rate <= NextStart(tail, i, now) {
      assert log[i + 1].start + log[i + 1].size * rate <= NextStart(log, i + 1, now);
    }
  }

  lemma {:induction false} NoneStarted(log: seq<Batch>, now: nat, rps: nat, rate: nat, from: nat, to: nat)
    requires Paced(log, now, rps, rate) && (log != [] ==> to < log[0].start)
    ensures Started(log, from, to) == 0
    decreases |log|
  {
    if log != [] {
      PacedTail(log, now, rps, rate);
      NoneStarted(log[1..], now, rps, rate, from, to);
    }
  }

  lemma {:induction false} Distribute(m: nat, n: nat, rate: nat)
    ensures (m + n) * rate == m * rate + n * rate
    ensures 0 <= n * rate
  {
  }

  /** One more batch in a window: what it takes up and what the batches after it may take up. */
  lemma {:induction false} OneMoreStarted(first: nat, others: nat, start: nat, next: nat, to: nat, rps: nat, rate: nat)
    requires first <= rps && start + first * rate <= next <= to
    requires others * rate <= to - next + rps * rate
    ensures (first + others) * rate <= to - start + rps * rate
  {
    Distribute(first, others, rate);
  }

  lemma {:induction false} OnlyOneStarted(first: nat, rps: nat, rate: nat)
    requires first <= rps
    ensures first * rate <= rps * rate
  {
    Distribute(first, rps - first, rate);
  }

  lemma {:induction false} StartedAfter(log: seq<Batch>, now: nat, rps: nat, rate: nat, from: nat, to: nat)
    requires Paced(log, now, rps, rate) && log != [] && from <= log[0].start <= to
    ensures Started(log, from, to) * rate <= to - log[0].start + rps * rate
    decreases |log|
  {
    var first, tail := log[0], log[1..];
    PacedTail(log, now, rps, rate);
    assert first.start + first.size * rate <= NextStart(log, 0, now);
    if tail == [] || to < tail[0].start {
      NoneStarted(tail, now, rps, rate, from, to);
      OnlyOneStarted(first.size, rps, rate);
    } else {
      var others := Started(tail, from, to);
      NextIsLater(first.start, first.size, rate, tail[0].start);
      StartedAfter(tail, now, rps, rate, from, to);
      OneMoreStarted(first.size, others, first.start, tail[0].start, to, rps, rate);
    }
  }

  lemma {:induction false} NextIsLater(start: nat, size: nat, rate: nat, next: nat)
    requires start + size * rate <= next
    ensures start <= next
  {
    Distribute(0, size, rate);
  }

  /** In any window, over any sequence of calls, the cooldowns of the requests started fit into the
      window's length and one full batch. */
  lemma {:induction false} RateBound(log: seq<Batch>, now: nat, rps: nat, rate: nat, from: nat, length: nat)
    requires Paced(log, now, rps, rate)
    ensures Started(log, from, from + length) * rate <= length + rps * rate
    decreases |log|
  {
    if log != [] {
      if log[0].start < from {
        PacedTail(log, now, rps, rate);
        RateBound(log[1..], now, rps, rate, from, length);
      } else if log[0].start <= from + length {
        StartedAfter(log, now, rps, rate, from, from + length);
      } else {
        NoneStarted(log, now, rps, rate, from, from + length);
      }
    }
  }

  lemma {:induction false} DivideOut(n: nat, rps: nat, rate: nat, length: nat)
    requires 0 < rate && n * rate <= length + rps * rate
    ensures n <= rps + length / rate
  {
    var q := length / rate;
    assert length < (q + 1) * rate;
    if n > rps + q {
      Distribute(rps + q + 1, n - (rps + q + 1), rate);
      Distribute(rps, q + 1, rate);
    }
  }

  /** The bound as the number of requests a window allows. */
  lemma {:induction false} WindowBound(log: seq<Batch>, now: nat, rps: nat, rate: nat, from: nat, length: nat)
    requires Paced(log, now, rps, rate) && 0 < rate
    ensures Started(log, from, from + length) <= rps + length / rate
  {
    RateBound(log, now, rps, rate, from, length);
    DivideOut(Started(log, from, from + length), rps, rate, length);
  }

  /** What the limiter is for: up to a thousand requests a second, no second sees more than twice the
      requests asked for. */
  lemma {:induction false} SecondBound(log: seq<Batch>, now: nat, rps: nat, from: nat)
    requires 0 < rps <= 1000 && Paced(log, now, rps, RateLimit(rps))
    ensures Started(log, from, from + SECOND) <= 2 * rps
  {
    var rate := RateLimit(rps);
    RateLimitRounds(rps);
    RateAtLeast(rps, rate);
    RateBound(log, now, rps, rate, from, SECOND);
    TwiceAtMost(Started(log, from, from + SECOND), rps, rate);
  }

  lemma {:induction false} RateAtLeast(rps: nat, rate: nat)
    requires 0 < rps <= 1000 && SECOND < rps * (rate + 1)
    ensures rps <= rate
  {
    if rate < rps {
      Distribute(rate + 1, rps - (rate + 1), rps);
      Distribute(rps, 1000 - rps, rps);
    }
  }

  lemma {:induction false} TwiceAtMost(n: nat, rps: nat, rate: nat)
    requires 0 < rps <= rate && SECOND < rps * (rate + 1) && n * rate <= SECOND + rps * rate
    ensures n <= 2 * rps
  {
    Distribute(rate, 1, rps);
    Distribute(rps, rps, rate);
    if 2 * rps < n {
      Distribute(2 * rps + 1, n - (2 * rps + 1), rate);
      Distribute(2 * rps, 1, rate);
    }
  }

  /** One more batch, sent now and waited for, keeps the pace. */
  lemma {:induction false} PacedAppend(log: seq<Batch>, now: nat, rps: nat, rate: nat, size: nat, later: nat)
    requires Paced(log, now, rps, rate) && size <= rps && now + size * rate <= later
    ensures Paced(log + [Batch(now, size)], later, rps, rate)
  {
    var longer := log + [Batch(now, size)];
    forall i | 0 <= i < |longer| ensures longer[i].start + longer[i].size * rate <= NextStart(longer, i, later) {
      if i < |log| {
        assert log[i].start + log[i].size * rate <= NextStart(log, i, now);
      }
    }
  }

  // ------------------------------------------------------------------------------- chunks

  function Chunks<T>(s: seq<T>, size: nat): (chunks: seq<seq<T>>)
    requires 0 < size
    ensures forall c :: c in chunks ==> 0 < |c| <= size
    ensures forall i :: 0 <= i < |chunks| - 1 ==> |chunks[i]| == size
    decreases |s|
  {
    if s == [] then []
    else if |s| <= size then [s]
    else [s[..size]] + Chunks(s[size..], size)
  }

  function Concat<T>(chunks: seq<seq<T>>): seq<T> {
    if chunks == [] then [] else chunks[0] + Concat(chunks[1..])
  }

  lemma {:induction false} ChunksConcat<T>(s: seq<T>, size: nat)
    requires 0 < size
    ensures Concat(Chunks(s, size)) == s
    decreases |s|
  {
    if |s| > size {
      ChunksConcat(s[size..], size);
      assert s == s[..size] + s[size..];
      assert Chunks(s, size)[1..] == Chunks(s[size..], size);
    } else if s != [] {
      assert Concat([s]) == s + Concat([]) == s;
    }
  }

  lemma {:induction false} ConcatAppend<T>(chunks: seq<seq<T>>, last: seq<T>)
    ensures Concat(chunks + [last]) == Concat(chunks) + last
  {
    if chunks == [] {
      assert Concat([last]) == last + Concat([]) == last;
    } else {
      assert (chunks + [last])[1..] == chunks[1..] + [last];
      ConcatAppend(chunks[1..], last);
    }
  }
}
