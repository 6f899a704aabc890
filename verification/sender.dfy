/** The sending half of the uplink protocol: batches are numbered per agent run, published under
    `(robot, boot, seq)`, and put back when publishing fails. */
module Sender {
  import opened Deques
  import L = StreamLedger

  datatype Key = Key(robot: string, boot: string, number: nat)

  datatype Message<T> = Message(key: Key, rows: seq<T>)

  /** One run of an agent.  `log` remembers the batches this run has delivered. */
  datatype Sender<T> = Sender(robot: string, boot: string, number: nat, ledger: L.Stream<T>, log: seq<seq<T>>)

  function Start<T>(robot: string, boot: string, bufferMax: nat): Sender<T> {
    Sender(robot, boot, 0, L.Empty(bufferMax), [])
  }

  function Accept<T>(s: Sender<T>, row: T): Sender<T> {
    s.(ledger := L.Step(s.ledger, L.Accept(row)))
  }

  /** The first half of `_flush`: take a batch and give it the next number.  A flush already under way
      is not interrupted by another. */
  function Take<T>(s: Sender<T>, maxBatch: nat): Sender<T> {
    if s.ledger.flight != [] then s else
    var l := L.Step(s.ledger, L.Take(Min(|s.ledger.queue|, maxBatch)));
    s.(ledger := l, number := if l.flight != [] then s.number + 1 else s.number)
  }

  predicate AllOk(results: seq<bool>) {
    forall i :: 0 <= i < |results| ==> results[i]
  }

  predicate NoneOk(results: seq<bool>) {
    forall i :: 0 <= i < |results| ==> !results[i]
  }

  /** Some uplink topics accepted the batch and others did not. */
  predicate Partial(results: seq<bool>) {
    !AllOk(results) && !NoneOk(results)
  }

  function Outgoing<T>(s: Sender<T>): Message<T> {
    Message(Key(s.robot, s.boot, s.number), s.ledger.flight)
  }

  /** The second half of `_flush`, given the outcome of publishing on each uplink topic. */
  function Published<T>(s: Sender<T>, results: seq<bool>): Sender<T> {
    if s.ledger.flight == [] then s
    else if AllOk(results) then
      s.(ledger := L.Step(L.Step(s.ledger, L.Store), L.Finish), log := s.log + [s.ledger.flight])
    else
      s.(ledger := L.Step(s.ledger, L.PutBack), number := if s.number > 0 then s.number - 1 else 0)
  }

  /** What that puts on the wire. */
  function Wire<T(==)>(s: Sender<T>, results: seq<bool>): set<Message<T>> {
    if s.ledger.flight == [] || NoneOk(results) then {} else {Outgoing(s)}
  }

  function Flatten<T>(batches: seq<seq<T>>): seq<T> {
    if batches == [] then [] else Flatten(batches[..|batches| - 1]) + batches[|batches| - 1]
  }

  /** Batches delivered so far carry the numbers 1, 2, ..., and together the rows sent. */
  ghost predicate Numbered<T(!new)>(s: Sender<T>) {
    && !s.ledger.committed
    && s.ledger.replayed == []
    && s.number == |s.log| + (if s.ledger.flight == [] then 0 else 1)
    && Flatten(s.log) == s.ledger.stored
    && L.Balanced(s.ledger) && L.Ordered(s.ledger)
  }

  lemma {:induction false} StartNumbered<T(!new)>(robot: string, boot: string, bufferMax: nat)
    ensures Numbered(Start<T>(robot, boot, bufferMax))
  {
    L.EmptyIsGood<T>(bufferMax);
  }

  lemma {:induction false} StepLedger<T(!new)>(l: L.Stream<T>, op: L.Op<T>)
    requires L.Balanced(l) && L.Ordered(l)
    ensures L.Balanced(L.Step(l, op)) && L.Ordered(L.Step(l, op))
  {
    L.StepKeepsBalance(l, op);
    L.StepKeepsBound(l, op);
    L.StepKeepsInOrder(l, op);
    L.StepKeepsComplete(l, op);
  }

  lemma {:induction false} AcceptNumbered<T(!new)>(s: Sender<T>, row: T)
    requires Numbered(s)
    ensures Numbered(Accept(s, row))
  {
    StepLedger(s.ledger, L.Accept(row));
  }

  lemma {:induction false} TakeNumbered<T(!new)>(s: Sender<T>, maxBatch: nat)
    requires Numbered(s)
    ensures Numbered(Take(s, maxBatch))
  {
    StepLedger(s.ledger, L.Take(Min(|s.ledger.queue|, maxBatch)));
  }

  lemma {:induction false} PublishedNumbered<T(!new)>(s: Sender<T>, results: seq<bool>)
    requires Numbered(s)
    ensures Numbered(Published(s, results))
  {
    if s.ledger.flight != [] {
      if AllOk(results) {
        StepLedger(s.ledger, L.Store);
        StepLedger(L.Step(s.ledger, L.Store), L.Finish);
        var log' := s.log + [s.ledger.flight];
        assert log'[..|log'| - 1] == s.log;
      } else {
        StepLedger(s.ledger, L.PutBack);
      }
    }
  }

  /** The number of the next batch is already on the wire if and only if this publish was partial: the
      agent takes the number back although one topic carried it. */
  lemma {:induction false} NumberReusedIffPartial<T(!new)>(s: Sender<T>, results: seq<bool>, maxBatch: nat)
    requires Numbered(s) && s.ledger.flight != [] && |results| > 0
    requires Take(Published(s, results), maxBatch).ledger.flight != []
    ensures var next := Outgoing(Take(Published(s, results), maxBatch));
            Partial(results) <==> exists m :: m in Wire(s, results) && m.key == next.key
  {
    var next := Outgoing(Take(Published(s, results), maxBatch));
    if Partial(results) {
      assert Outgoing(s) in Wire(s, results) && Outgoing(s).key == next.key;
    }
  }

  // ---------------------------------------------------------------- draining

  /** `n` flushes one after the other, with every publish succeeding and nothing enqueued in between. */
  function Flushes<T>(s: Sender<T>, maxBatch: nat, results: seq<bool>, n: nat): Sender<T> {
    if n == 0 then s else Published(Take(Flushes(s, maxBatch, results, n - 1), maxBatch), results)
  }

  /** The batches delivered since `before` are full but for the last. */
  predicate FullBatches<T>(before: nat, log: seq<seq<T>>, maxBatch: nat) {
    && (forall i :: before <= i < |log| ==> 0 < |log[i]| <= maxBatch)
    && (forall i :: before <= i < |log| - 1 ==> |log[i]| == maxBatch)
  }

  predicate Quiet<T(==)>(s: Sender<T>) {
    s.ledger.flight == [] && !s.ledger.committed && |s.ledger.queue| <= s.ledger.max
  }

  /** `s` has sent the first `k` rows that `before` had buffered, in batches as large as allowed, each with the next
      number. */
  predicate SentFirst<T(==)>(before: Sender<T>, s: Sender<T>, maxBatch: nat, k: nat) {
    && Quiet(s) && k <= |before.ledger.queue|
    && s.ledger.queue == before.ledger.queue[k..]
    && s.ledger.stored == before.ledger.stored + before.ledger.queue[..k]
    && s.ledger.dropped == before.ledger.dropped && s.ledger.cut == before.ledger.cut
    && |s.log| >= |before.log| && s.log[..|before.log|] == before.log
    && FullBatches(|before.log|, s.log, maxBatch)
    && s.number == before.number + (|s.log| - |before.log|)
    && (k < |before.ledger.queue| && |s.log| > |before.log| ==> |s.log[|s.log| - 1]| == maxBatch)
  }

  lemma {:induction false} FlushSends<T>(before: Sender<T>, s: Sender<T>, maxBatch: nat, results: seq<bool>, k: nat)
    requires SentFirst(before, s, maxBatch, k) && AllOk(results)
    ensures SentFirst(before, Published(Take(s, maxBatch), results), maxBatch,
                      Min(k + maxBatch, |before.ledger.queue|))
  {
    var q := before.ledger.queue;
    var k' := Min(k + maxBatch, |q|);
    assert s.ledger.queue[..k' - k] == q[k..k'] && s.ledger.queue[k' - k..] == q[k'..];
    assert q[..k] + q[k..k'] == q[..k'];
    TakeFlight(s, maxBatch);
    if k' > k {
      hide Take;
      SendsBatch(Take(s, maxBatch), results);
      hide Published;
    }
  }

  lemma {:induction false} TakeFlight<T>(s: Sender<T>, maxBatch: nat)
    requires Quiet(s)
    ensures var n := Min(|s.ledger.queue|, maxBatch);
            var l := s.ledger.(flight := s.ledger.queue[..n], queue := s.ledger.queue[n..]);
            Take(s, maxBatch) == s.(ledger := l, number := if n > 0 then s.number + 1 else s.number)
  {
  }

  lemma {:induction false} SendsBatch<T>(s: Sender<T>, results: seq<bool>)
    requires s.ledger.flight != [] && !s.ledger.committed && AllOk(results)
    ensures Published(s, results) ==
              s.(ledger := s.ledger.(stored := s.ledger.stored + s.ledger.flight, flight := []),
                 log := s.log + [s.ledger.flight])
  {
  }

  lemma {:induction false} FlushesSend<T>(s: Sender<T>, maxBatch: nat, results: seq<bool>, n: nat)
    requires Quiet(s) && AllOk(results)
    ensures SentFirst(s, Flushes(s, maxBatch, results, n), maxBatch, Min(n * maxBatch, |s.ledger.queue|))
  {
    hide SentFirst, Quiet, Take, Published, AllOk;
    if n == 0 {
      NothingSent(s, maxBatch);
    } else {
      FlushesSend(s, maxBatch, results, n - 1);
      OneMoreBatch(n, maxBatch, |s.ledger.queue|);
      FlushSends(s, Flushes(s, maxBatch, results, n - 1), maxBatch, results,
                 Min((n - 1) * maxBatch, |s.ledger.queue|));
    }
  }

  lemma {:induction false} NothingSent<T>(s: Sender<T>, maxBatch: nat)
    requires Quiet(s)
    ensures SentFirst(s, s, maxBatch, 0)
  {
    assert s.ledger.stored + s.ledger.queue[..0] == s.ledger.stored;
  }

  lemma {:induction false} OneMoreBatch(n: nat, maxBatch: nat, rows: nat)
    requires n > 0
    ensures Min(Min((n - 1) * maxBatch, rows) + maxBatch, rows) == Min(n * maxBatch, rows)
  {
    assert n * maxBatch == (n - 1) * maxBatch + maxBatch;
  }

  /** From every state between flushes: `n` flushes that succeed send exactly the oldest `n * maxBatch` buffered rows,
      or all if there are fewer, in order, in batches that are full but for the last, under consecutive numbers; and
      they lose nothing. */
  lemma {:induction false} FlushesDrain<T(!new)>(s: Sender<T>, maxBatch: nat, results: seq<bool>, n: nat)
    requires Numbered(s) && s.ledger.flight == [] && AllOk(results)
    ensures var s' := Flushes(s, maxBatch, results, n);
            && SentFirst(s, s', maxBatch, Min(n * maxBatch, |s.ledger.queue|))
            && Numbered(s')
            && (n * maxBatch >= |s.ledger.queue| ==>
                 s'.ledger.queue == [] && s'.ledger.stored == s.ledger.stored + s.ledger.queue)
  {
    FlushesSend(s, maxBatch, results, n);
    FlushesNumbered(s, maxBatch, results, n);
    hide Flushes, Numbered;
    assert s.ledger.queue[..|s.ledger.queue|] == s.ledger.queue;
  }

  lemma {:induction false} FlushesNumbered<T(!new)>(s: Sender<T>, maxBatch: nat, results: seq<bool>, n: nat)
    requires Numbered(s)
    ensures Numbered(Flushes(s, maxBatch, results, n))
  {
    if n > 0 {
      FlushesNumbered(s, maxBatch, results, n - 1);
      TakeNumbered(Flushes(s, maxBatch, results, n - 1), maxBatch);
      PublishedNumbered(Take(Flushes(s, maxBatch, results, n - 1), maxBatch), results);
    }
  }
}
