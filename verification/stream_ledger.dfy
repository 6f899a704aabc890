/** One stream of rows through a bounded deque that a sender drains in batches.

    `Bridge.buffer` on the vehicle and each of `TelemetryWriter.buffer`, `.events` and `.topics` on the
    server follow the same life: rows are appended, a batch is taken from the front, the batch is handed
    to something that either commits it or does not, and a failed batch is put back at the front.  Rows
    may be appended between any two of these steps.

    Besides the deque (`queue`) and the batch in hand (`flight`), the ledger remembers what happened to
    every row: `accepted`, `stored`, `dropped` by a full deque on append, `cut` by a full deque on put-back,
    and `replayed`, the rows put back although an earlier stage had already stored them. */
module StreamLedger {
  import opened Deques

  datatype Stream<T> = Stream(
    max: nat,
    queue: seq<T>,
    flight: seq<T>,
    committed: bool,
    accepted: seq<T>,
    stored: seq<T>,
    dropped: seq<T>,
    cut: seq<T>,
    replayed: seq<T>)

  datatype Op<T> =
    | Accept(row: T)
    | Take(n: nat)
    | Store
    | Finish
    | PutBack

  function Empty<T>(max: nat): Stream<T> {
    Stream(max, [], [], false, [], [], [], [], [])
  }

  /** The rows in hand that the receiver has not committed. */
  function Pending<T>(s: Stream<T>): seq<T> {
    if s.committed then [] else s.flight
  }

  predicate Enabled<T>(s: Stream<T>, op: Op<T>) {
    match op
    case Accept(_) => true
    case Take(n) => n <= |s.queue| && s.flight == [] && !s.committed
    case Store => !s.committed
    case Finish => s.committed
    case PutBack => true
  }

  /** An operation that cannot happen in a state leaves the state alone. */
  function Step<T>(s: Stream<T>, op: Op<T>): Stream<T> {
    if !Enabled(s, op) then s else
    match op
    case Accept(row) =>
      s.(queue := Append(s.queue, s.max, row),
         accepted := s.accepted + [row],
         dropped := if |s.queue| < s.max then s.dropped else s.dropped + [(s.queue + [row])[0]])
    case Take(n) =>
      s.(flight := s.queue[..n], queue := s.queue[n..])
    case Store =>
      s.(stored := s.stored + s.flight, committed := true)
    case Finish =>
      s.(flight := [], committed := false)
    case PutBack =>
      var all := s.flight + s.queue;
      s.(queue := ExtendLeft(s.queue, s.max, Reversed(s.flight)),
         cut := s.cut + all[Min(|all|, s.max)..],
         replayed := s.replayed + (if s.committed then s.flight else []),
         flight := [],
         committed := false)
  }

  /** What an append changes. */
  lemma {:induction false} AcceptFacts<T>(s: Stream<T>, row: T)
    requires |s.queue| <= s.max
    ensures var s' := Step(s, Accept(row));
            && s' == s.(queue := s'.queue, accepted := s'.accepted, dropped := s'.dropped)
            && s'.queue == Append(s.queue, s.max, row) && |s'.queue| <= s.max
            && s'.accepted == s.accepted + [row]
            && |s'.dropped| == |s.dropped| + (if |s.queue| == s.max then 1 else 0)
  {
  }

  function Run<T>(s: Stream<T>, ops: seq<Op<T>>): Stream<T>
    decreases |ops|
  {
    if ops == [] then s else Run(Step(s, ops[0]), ops[1..])
  }

  // ---------------------------------------------------------------- conservation

  ghost predicate Balanced<T(!new)>(s: Stream<T>) {
    && |s.queue| <= s.max
    && multiset(s.accepted) + multiset(s.replayed)
       == multiset(s.stored) + multiset(Pending(s)) + multiset(s.queue) + multiset(s.dropped) + multiset(s.cut)
  }

  lemma {:induction false} SplitMultiset<T>(s: seq<T>, n: nat)
    requires n <= |s|
    ensures multiset(s) == multiset(s[..n]) + multiset(s[n..])
  {
    assert s == s[..n] + s[n..];
  }

  lemma {:induction false} AcceptBalance<T>(q: seq<T>, max: nat, row: T)
    requires |q| <= max
    ensures |q| < max ==> multiset(q) + multiset([row]) == multiset(Append(q, max, row))
    ensures |q| == max ==> multiset(q) + multiset([row]) == multiset(Append(q, max, row)) + multiset([(q + [row])[0]])
  {
    if |q| == max {
      SplitMultiset(q + [row], 1);
      assert (q + [row])[..1] == [(q + [row])[0]];
    }
  }

  lemma {:induction false} PutBackBalance<T>(flight: seq<T>, q: seq<T>, max: nat)
    requires |q| <= max
    ensures var all := flight + q;
            multiset(flight) + multiset(q)
            == multiset(ExtendLeft(q, max, Reversed(flight))) + multiset(all[Min(|all|, max)..])
  {
    var all := flight + q;
    PutBackKeepsOldest(q, max, flight);
    SplitMultiset(all, Min(|all|, max));
  }

  lemma {:induction false} Exchange<T(!new)>(st: multiset<T>, p: multiset<T>, q: multiset<T>, d: multiset<T>,
                                      c: multiset<T>, row: multiset<T>, q': multiset<T>, gone: multiset<T>)
    requires q + row == q' + gone
    ensures st + p + q + d + c + row == st + p + q' + (d + gone) + c
  {
    forall x ensures (st + p + q + d + c + row)[x] == (st + p + q' + (d + gone) + c)[x] {
      assert (q + row)[x] == (q' + gone)[x];
    }
  }

  lemma {:induction false} AcceptKeepsBalance<T(!new)>(s: Stream<T>, row: T)
    requires Balanced(s)
    ensures Balanced(Step(s, Accept(row)))
  {
    var s' := Step(s, Accept(row));
    var gone := if |s.queue| < s.max then [] else [(s.queue + [row])[0]];
    AcceptBalance(s.queue, s.max, row);
    assert s'.dropped == s.dropped + gone;
    Exchange(multiset(s.stored), multiset(Pending(s)), multiset(s.queue), multiset(s.dropped), multiset(s.cut),
             multiset([row]), multiset(s'.queue), multiset(gone));
    assert multiset(s'.accepted) + multiset(s'.replayed)
           == multiset(s.accepted) + multiset(s.replayed) + multiset([row]);
  }

  lemma {:induction false} PutBackKeepsBalance<T(!new)>(s: Stream<T>)
    requires Balanced(s)
    ensures Balanced(Step(s, PutBack))
  {
    var s' := Step(s, PutBack);
    var lost := s'.cut[|s.cut|..];
    PutBackKeepsOldest(s.queue, s.max, s.flight);
    PutBackBalance(s.flight, s.queue, s.max);
    assert s'.cut == s.cut + lost;
    assert multiset(s.flight) + multiset(s.queue) == multiset(s'.queue) + multiset(lost);
    forall x ensures multiset(s'.accepted)[x] + multiset(s'.replayed)[x]
                     == multiset(s'.stored)[x] + multiset(s'.queue)[x] + multiset(s'.dropped)[x] + multiset(s'.cut)[x] {
      assert (multiset(s.accepted) + multiset(s.replayed))[x]
          == (multiset(s.stored) + multiset(Pending(s)) + multiset(s.queue) + multiset(s.dropped) + multiset(s.cut))[x];
      assert (multiset(s.flight) + multiset(s.queue))[x] == (multiset(s'.queue) + multiset(lost))[x];
    }
  }

  lemma {:induction false} StepKeepsBalance<T(!new)>(s: Stream<T>, op: Op<T>)
    requires Balanced(s)
    ensures Balanced(Step(s, op))
  {
    var s' := Step(s, op);
    if Enabled(s, op) {
      match op
      case Accept(row) => AcceptKeepsBalance(s, row);
      case Take(n) =>
        SplitMultiset(s.queue, n);
      case Store =>
      case Finish =>
      case PutBack =>
        PutBackKeepsBalance(s);
    }
  }

  /** Conservation with multiplicity, over every interleaving of appends, takes, commits and failures:
      each accepted row, plus each row put back after it had been stored, is accounted for exactly once as
      stored, in hand, queued, dropped or cut. */
  lemma {:induction false} RunConserves<T(!new)>(s: Stream<T>, ops: seq<Op<T>>)
    requires Balanced(s)
    ensures Balanced(Run(s, ops))
    decreases |ops|
  {
    if ops != [] {
      StepKeepsBalance(s, ops[0]);
      RunConserves(Step(s, ops[0]), ops[1..]);
    }
  }

  lemma {:induction false} NothingVanishes<T(!new)>(max: nat, ops: seq<Op<T>>, row: T)
    requires row in Run(Empty<T>(max), ops).accepted
    ensures var s := Run(Empty<T>(max), ops);
            row in s.stored || row in Pending(s) || row in s.queue || row in s.dropped || row in s.cut
  {
    RunConserves(Empty<T>(max), ops);
    var s := Run(Empty<T>(max), ops);
    assert row in multiset(s.accepted) + multiset(s.replayed);
  }

  // ---------------------------------------------------------------- order

  /** `f` embeds `a` into `b` without changing the order. */
  ghost predicate Embeds<T>(a: seq<T>, b: seq<T>, f: seq<nat>) {
    && |f| == |a|
    && (forall i :: 0 <= i < |f| ==> f[i] < |b| && a[i] == b[f[i]])
    && (forall i, j :: 0 <= i < j < |f| ==> f[i] < f[j])
  }

  ghost predicate Subsequence<T>(a: seq<T>, b: seq<T>) {
    exists f: seq<nat> :: Embeds(a, b, f)
  }

  lemma {:induction false} SubsequenceWithout<T>(p: seq<T>, m: seq<T>, r: seq<T>, b: seq<T>)
    requires Subsequence(p + m + r, b)
    ensures Subsequence(p + r, b)
  {
    var f: seq<nat> :| Embeds(p + m + r, b, f);
    var g := f[..|p|] + f[|p| + |m|..];
    forall i | 0 <= i < |g| ensures g[i] < |b| && (p + r)[i] == b[g[i]] {
      if i < |p| {
        assert (p + m + r)[i] == p[i];
      } else {
        assert (p + m + r)[i + |m|] == r[i - |p|];
      }
    }
    assert Embeds(p + r, b, g);
  }

  lemma {:induction false} SubsequenceAppend<T>(a: seq<T>, b: seq<T>, x: T)
    requires Subsequence(a, b)
    ensures Subsequence(a + [x], b + [x])
  {
    var f: seq<nat> :| Embeds(a, b, f);
    assert Embeds(a + [x], b + [x], f + [|b|]);
  }

  /** The rows sent, then in hand, then queued. */
  function Outgoing<T>(s: Stream<T>): seq<T> {
    s.stored + Pending(s) + s.queue
  }

  ghost predicate InOrder<T(!new)>(s: Stream<T>) {
    s.replayed == [] ==> Subsequence(Outgoing(s), s.accepted)
  }

  predicate Complete<T(==)>(s: Stream<T>) {
    s.replayed == [] && s.dropped == [] && s.cut == [] ==> Outgoing(s) == s.accepted
  }

  ghost predicate Ordered<T(!new)>(s: Stream<T>) {
    |s.queue| <= s.max && InOrder(s) && Complete(s)
  }

  lemma {:induction false} SubsequenceAccept<T>(front: seq<T>, q: seq<T>, max: nat, row: T, b: seq<T>)
    requires |q| <= max
    requires Subsequence(front + q, b)
    ensures Subsequence(front + Append(q, max, row), b + [row])
  {
    var back := q + [row];
    SubsequenceAppend(front + q, b, row);
    assert front + q + [row] == front + back;
    if |q| == max {
      assert front + back == front + back[..1] + back[1..];
      SubsequenceWithout(front, back[..1], back[1..], b + [row]);
    }
  }

  lemma {:induction false} SubsequencePutBack<T>(front: seq<T>, flight: seq<T>, q: seq<T>, max: nat, b: seq<T>)
    requires |q| <= max
    requires Subsequence(front + flight + q, b)
    ensures Subsequence(front + ExtendLeft(q, max, Reversed(flight)), b)
  {
    hide Subsequence, ExtendLeft, Reversed;
    PutBackKeepsOldest(q, max, flight);
    var all := flight + q;
    var kept := all[..Min(|all|, max)];
    var gone := all[|kept|..];
    assert front + flight + q == front + kept + gone + [];
    SubsequenceWithout(front + kept, gone, [], b);
    assert front + kept + [] == front + kept;
  }

  lemma {:induction false} PutBackUncut<T>(flight: seq<T>, q: seq<T>, max: nat)
    requires |q| <= max && (flight + q)[Min(|flight + q|, max)..] == []
    ensures ExtendLeft(q, max, Reversed(flight)) == flight + q
  {
    hide ExtendLeft, Reversed;
    PutBackKeepsOldest(q, max, flight);
    var all := flight + q;
    assert |all[Min(|all|, max)..]| == 0;
  }

  lemma {:induction false} StepKeepsInOrder<T(!new)>(s: Stream<T>, op: Op<T>)
    requires |s.queue| <= s.max && InOrder(s)
    ensures InOrder(Step(s, op))
  {
    hide Subsequence, ExtendLeft, Reversed, Append;
    var s' := Step(s, op);
    if s'.replayed == [] {
      match op
      case Accept(row) =>
        SubsequenceAccept(s.stored + Pending(s), s.queue, s.max, row, s.accepted);
        assert s.stored + Pending(s) + Append(s.queue, s.max, row) == Outgoing(s');
      case PutBack =>
        assert s.stored + s.flight + s.queue == Outgoing(s);
        SubsequencePutBack(s.stored, s.flight, s.queue, s.max, s.accepted);
        assert s.stored + ExtendLeft(s.queue, s.max, Reversed(s.flight)) == Outgoing(s');
      case _ =>
        assert Outgoing(s') == Outgoing(s);
    }
  }

  lemma {:induction false} StepKeepsBound<T(!new)>(s: Stream<T>, op: Op<T>)
    requires |s.queue| <= s.max
    ensures |Step(s, op).queue| <= s.max && Step(s, op).max == s.max
  {
    PutBackKeepsOldest(s.queue, s.max, s.flight);
  }

  lemma {:induction false} StepKeepsComplete<T(!new)>(s: Stream<T>, op: Op<T>)
    requires |s.queue| <= s.max && Complete(s)
    ensures Complete(Step(s, op))
  {
    if op.PutBack? {
      PutBackKeepsComplete(s);
    } else if op.Accept? {
      AcceptKeepsComplete(s, op.row);
    } else {
      assert Outgoing(Step(s, op)) == Outgoing(s);
    }
  }

  lemma {:induction false} AcceptKeepsComplete<T(!new)>(s: Stream<T>, row: T)
    requires |s.queue| <= s.max && Complete(s)
    ensures Complete(Step(s, Accept(row)))
  {
    var s' := Step(s, Accept(row));
    if s'.dropped == [] {
      assert Outgoing(s') == Outgoing(s) + [row];
    }
  }

  lemma {:induction false} PutBackKeepsComplete<T(!new)>(s: Stream<T>)
    requires |s.queue| <= s.max && Complete(s)
    ensures Complete(Step(s, PutBack))
  {
    hide ExtendLeft, Reversed;
    var s' := Step(s, PutBack);
    if s'.replayed == [] && s'.dropped == [] && s'.cut == [] {
      PutBackUncut(s.flight, s.queue, s.max);
      assert s.stored + (s.flight + s.queue) == Outgoing(s);
    }
  }

  /** As long as no batch is put back after it was stored, the rows sent, in hand and queued are a
      subsequence of the accepted rows in their order, and all of them when nothing overflowed. */
  lemma {:induction false} RunKeepsOrder<T(!new)>(s: Stream<T>, ops: seq<Op<T>>)
    requires Ordered(s)
    ensures Ordered(Run(s, ops))
    decreases |ops|
  {
    if ops != [] {
      StepKeepsBound(s, ops[0]);
      StepKeepsInOrder(s, ops[0]);
      StepKeepsComplete(s, ops[0]);
      RunKeepsOrder(Step(s, ops[0]), ops[1..]);
    }
  }

  lemma {:induction false} EmptyIsGood<T(!new)>(max: nat)
    ensures Balanced(Empty<T>(max)) && Ordered(Empty<T>(max))
  {
    assert Embeds(Outgoing(Empty<T>(max)), [], []);
  }

  // ---------------------------------------------------------------- exactly once

  /** A failure at a later stage than this stream's own store call. */
  predicate LateFailure<T>(s: Stream<T>, op: Op<T>) {
    op.PutBack? && s.committed && s.flight != []
  }

  predicate HasLateFailure<T>(s: Stream<T>, ops: seq<Op<T>>)
    decreases |ops|
  {
    ops != [] && (LateFailure(s, ops[0]) || HasLateFailure(Step(s, ops[0]), ops[1..]))
  }

  lemma {:induction false} ReplayedIffLateFailure<T>(s: Stream<T>, ops: seq<Op<T>>)
    ensures Run(s, ops).replayed == s.replayed <==> !HasLateFailure(s, ops)
    ensures |Run(s, ops).replayed| >= |s.replayed|
    decreases |ops|
  {
    if ops != [] {
      ReplayedIffLateFailure(Step(s, ops[0]), ops[1..]);
    }
  }

  /** The rows the ledger holds or has lost add up to the accepted rows exactly on the runs in which no batch
      fails after this stream's own store call succeeded; on those runs they are in order, too. */
  lemma {:induction false} ExactlyOnceIffNoLateFailure<T(!new)>(max: nat, ops: seq<Op<T>>)
    ensures var s := Run(Empty<T>(max), ops);
            && (!HasLateFailure(Empty<T>(max), ops) <==>
                |s.accepted| == |s.stored| + |Pending(s)| + |s.queue| + |s.dropped| + |s.cut|)
            && (!HasLateFailure(Empty<T>(max), ops) ==> Subsequence(Outgoing(s), s.accepted))
            && (!HasLateFailure(Empty<T>(max), ops) && s.dropped == [] && s.cut == [] ==> Outgoing(s) == s.accepted)
  {
    var s := Run(Empty<T>(max), ops);
    EmptyIsGood<T>(max);
    RunConserves(Empty<T>(max), ops);
    RunKeepsOrder(Empty<T>(max), ops);
    ReplayedIffLateFailure(Empty<T>(max), ops);
    assert |multiset(s.accepted) + multiset(s.replayed)| == |s.accepted| + |s.replayed|;
    assert |multiset(s.stored) + multiset(Pending(s)) + multiset(s.queue) + multiset(s.dropped) + multiset(s.cut)|
        == |s.stored| + |Pending(s)| + |s.queue| + |s.dropped| + |s.cut|;
  }

  /** How many rows one put-back loses: exactly those by which the batch in hand and the rows that
      arrived meanwhile exceed the deque, and they are the newest. */
  lemma {:induction false} PutBackCutsNewest<T>(s: Stream<T>)
    requires |s.queue| <= s.max
    ensures var s' := Step(s, PutBack);
            var all := s.flight + s.queue;
            && s'.queue + s'.cut[|s.cut|..] == all
            && |s'.cut| - |s.cut| == (if |all| > s.max then |all| - s.max else 0)
  {
    hide ExtendLeft, Reversed;
    var s', all := Step(s, PutBack), s.flight + s.queue;
    PutBackKeepsOldest(s.queue, s.max, s.flight);
    assert s'.cut == s.cut + all[Min(|all|, s.max)..];
    assert s'.cut[|s.cut|..] == all[Min(|all|, s.max)..];
  }

  // ---------------------------------------------------------------- stored and still to be stored

  /** A batch in hand that is committed is what was stored last. */
  predicate Archived<T(==)>(s: Stream<T>) {
    s.committed ==> |s.flight| <= |s.stored| && s.stored[|s.stored| - |s.flight|..] == s.flight
  }

  lemma {:induction false} StepKeepsArchived<T>(s: Stream<T>, op: Op<T>)
    requires Archived(s)
    ensures Archived(Step(s, op))
  {
    hide ExtendLeft, Reversed, Append;
  }

  lemma {:induction false} SubsequenceDistinct<T>(a: seq<T>, b: seq<T>)
    requires Subsequence(a, b) && Distinct(b)
    ensures Distinct(a)
  {
    var f: seq<nat> :| Embeds(a, b, f);
    forall i, j | 0 <= i < j < |a| ensures a[i] != a[j] {
      assert a[i] == b[f[i]] && a[j] == b[f[j]] && f[i] < f[j];
    }
  }

  /** After a late failure the first row of the batch is stored and queued to be stored again. */
  lemma {:induction false} LateFailureRepeats<T>(s: Stream<T>)
    requires LateFailure(s, PutBack) && Archived(s) && |s.queue| <= s.max && s.max > 0
    ensures var s' := Step(s, PutBack); s'.queue != [] && s'.queue[0] == s.flight[0] && s.flight[0] in s'.stored
    ensures !Distinct(Outgoing(Step(s, PutBack)))
  {
    hide ExtendLeft, Reversed;
    PutBackKeepsOldest(s.queue, s.max, s.flight);
    var s' := Step(s, PutBack);
    var i := |s.stored| - |s.flight|;
    assert s.stored[i] == s.stored[i..][0] == s.flight[0];
    assert Outgoing(s')[i] == Outgoing(s')[|s.stored|];
  }
}
