/** Bounded double-ended queues as values.

    The agent and the archive writer both keep their rows in a deque with a `maxlen`.  Such a deque
    discards from the opposite end when it is full, so the same container loses its OLDEST row on an
    append and its NEWEST rows when a failed batch is put back at the front. */
module Deques {

  /** `append` on a deque of at most `max` rows: a full deque discards its oldest row. */
  function Append<T>(q: seq<T>, max: nat, x: T): seq<T> {
    if |q| < max then q + [x] else (q + [x])[1..]
  }

  /** `appendleft` on a deque of at most `max` rows: a full deque discards its newest row. */
  function AppendLeft<T>(q: seq<T>, max: nat, x: T): seq<T> {
    if |q| < max then [x] + q else ([x] + q)[..|q|]
  }

  /** `extendleft` pushes one element at a time. */
  function ExtendLeft<T>(q: seq<T>, max: nat, xs: seq<T>): seq<T>
    decreases |xs|
  {
    if xs == [] then q else ExtendLeft(AppendLeft(q, max, xs[0]), max, xs[1..])
  }

  function Reversed<T>(xs: seq<T>): seq<T> {
    if xs == [] then [] else Reversed(xs[1..]) + [xs[0]]
  }

  function Min(a: int, b: int): int {
    if a < b then a else b
  }

  predicate Distinct<T(==)>(s: seq<T>) {
    forall i, j :: 0 <= i < j < |s| ==> s[i] != s[j]
  }

  /** Every element once, in order of first occurrence. */
  function Firsts<T(==)>(s: seq<T>): seq<T> {
    if s == [] then []
    else
      var f := Firsts(s[..|s| - 1]);
      if s[|s| - 1] in f then f else f + [s[|s| - 1]]
  }

  /** The last `n` elements, or all of them when there are fewer. */
  function LastN<T>(s: seq<T>, n: nat): seq<T> {
    if |s| <= n then s else s[|s| - n..]
  }

  lemma {:induction false} ExtendLeftConcat<T>(q: seq<T>, max: nat, xs: seq<T>, ys: seq<T>)
    ensures ExtendLeft(q, max, xs + ys) == ExtendLeft(ExtendLeft(q, max, xs), max, ys)
    decreases |xs|
  {
    if xs == [] {
      assert xs + ys == ys;
    } else {
      assert (xs + ys)[1..] == xs[1..] + ys;
      ExtendLeftConcat(AppendLeft(q, max, xs[0]), max, xs[1..], ys);
    }
  }

  /** Putting a failed batch back at the front keeps the batch ahead of what arrived meanwhile and
      cuts exactly the newest rows that no longer fit. */
  lemma {:induction false} PutBackKeepsOldest<T>(q: seq<T>, max: nat, batch: seq<T>)
    requires |q| <= max
    ensures ExtendLeft(q, max, Reversed(batch)) == (batch + q)[..Min(|batch| + |q|, max)]
    decreases |batch|
  {
    if batch == [] {
      assert batch + q == q;
    } else {
      var rest := batch[1..];
      var inner := (rest + q)[..Min(|rest| + |q|, max)];
      ExtendLeftConcat(q, max, Reversed(rest), [batch[0]]);
      PutBackKeepsOldest(q, max, rest);
      assert ExtendLeft(inner, max, [batch[0]]) == AppendLeft(inner, max, batch[0]) by {
        assert ([batch[0]])[1..] == [];
      }
      assert batch + q == [batch[0]] + (rest + q);
    }
  }

  /** A full deque keeps its newest `max` rows under append. */
  lemma {:induction false} AppendKeepsNewest<T>(q: seq<T>, max: nat, x: T)
    requires |q| <= max
    ensures Append(q, max, x) == LastN(q + [x], max)
  {
  }

  function AppendAll<T>(q: seq<T>, max: nat, xs: seq<T>): seq<T> {
    if xs == [] then q else Append(AppendAll(q, max, xs[..|xs| - 1]), max, xs[|xs| - 1])
  }

  /** Any series of appends leaves the newest `max` rows. */
  lemma {:induction false} AppendAllKeepsNewest<T>(q: seq<T>, max: nat, xs: seq<T>)
    requires |q| <= max
    ensures AppendAll(q, max, xs) == LastN(q + xs, max)
  {
    if xs == [] {
      assert q + xs == q;
    } else {
      var most, x := xs[..|xs| - 1], xs[|xs| - 1];
      AppendAllKeepsNewest(q, max, most);
      assert q + xs == (q + most) + [x];
      AppendKeepsNewest(LastN(q + most, max), max, x);
    }
  }
}
