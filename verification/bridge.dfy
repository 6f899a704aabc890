/** `Bridge`, the relay on the vehicle: the uplink filter, the bounded buffer and the two halves of
    `_flush`, before and after publishing. */
module AgentBridge {
  import opened Deques
  import L = StreamLedger
  import R = RelayFilter
  import S = Sender
  import Topics

  /** The agent as a value: what its filter remembers and relayed, and its end of the uplink. */
  datatype Agent = Agent(filter: R.Filter, sender: S.Sender<R.Row>)

  function Offered(cfg: R.Config, a: Agent, o: R.Offer): Agent {
    var d := R.Decide(cfg, a.filter.clocks, o.topic, o.now, o.value);
    Agent(R.Step(cfg, a.filter, o),
          if d.Relay? then S.Accept(a.sender, R.Row(o.topic, o.now, o.value, d.flag)) else a.sender)
  }

  /** What every reachable agent satisfies. */
  ghost predicate Lawful(cfg: R.Config, a: Agent) {
    && a.filter.rows == a.sender.ledger.accepted
    && R.Agrees(a.filter) && R.Honest(cfg, a.filter.rows)
    && S.Numbered(a.sender)
  }

  lemma {:induction false} OfferedLawful(cfg: R.Config, a: Agent, o: R.Offer)
    requires Lawful(cfg, a)
    ensures Lawful(cfg, Offered(cfg, a, o))
  {
    var d := R.Decide(cfg, a.filter.clocks, o.topic, o.now, o.value);
    R.StepAgrees(cfg, a.filter, o);
    R.StepHonest(cfg, a.filter, o);
    if d.Relay? {
      S.AcceptNumbered(a.sender, R.Row(o.topic, o.now, o.value, d.flag));
    }
  }

  /** The agent's ledger after an offer. */
  lemma {:induction false} OfferedLedger(cfg: R.Config, a: Agent, o: R.Offer)
    requires |a.sender.ledger.queue| <= a.sender.ledger.max
    ensures var d := R.Decide(cfg, a.filter.clocks, o.topic, o.now, o.value);
            var l, l' := a.sender.ledger, Offered(cfg, a, o).sender.ledger;
            && |l'.queue| <= l'.max == l.max && l'.flight == l.flight && l'.committed == l.committed
            && Offered(cfg, a, o).sender.number == a.sender.number
            && Offered(cfg, a, o).sender.log == a.sender.log
            && (if d.Relay? then
                  && l'.queue == Append(l.queue, l.max, R.Row(o.topic, o.now, o.value, d.flag))
                  && |l'.accepted| == |l.accepted| + 1
                  && |l'.dropped| == |l.dropped| + (if |l.queue| == l.max then 1 else 0)
                else l' == l)
            && Offered(cfg, a, o).filter.clocks == R.Advance(cfg, a.filter.clocks, o.topic, o.now, o.value)
  {
  }

  lemma {:induction false} FlushLawful(cfg: R.Config, a: Agent, maxBatch: nat, results: seq<bool>)
    requires Lawful(cfg, a)
    ensures Lawful(cfg, a.(sender := S.Take(a.sender, maxBatch)))
    ensures Lawful(cfg, a.(sender := S.Published(a.sender, results)))
    ensures |S.Published(a.sender, results).ledger.queue| <= a.sender.ledger.max
  {
    S.TakeNumbered(a.sender, maxBatch);
    S.PublishedNumbered(a.sender, results);
    FlushFacts(a.sender, maxBatch, results);
    hide R.Agrees, R.Honest, S.Numbered, S.Take, S.Published;
  }

  lemma {:induction false} FlushFacts(s: S.Sender<R.Row>, maxBatch: nat, results: seq<bool>)
    requires S.Numbered(s)
    ensures S.Take(s, maxBatch).ledger.accepted == S.Published(s, results).ledger.accepted == s.ledger.accepted
    ensures |S.Published(s, results).ledger.queue| <= s.ledger.max
  {
    L.StepKeepsBound(s.ledger, L.PutBack);
    hide ExtendLeft, Reversed, Append, L.Balanced;
  }

  class Bridge {
    const cfg: R.Config
    const bufferMax: nat
    const maxBatch: nat

    var buffer: seq<R.Row>
    var last: map<string, R.Value>
    var changedAt: map<string, real>
    var seenAt: map<string, real>
    var sentAt: map<string, real>
    var number: nat
    var uplinkUp: bool
    var batch: seq<R.Row>

    var seen: nat
    var relayed: nat
    var heartbeats: nat
    var skippedRate: nat
    var skippedSame: nat
    var droppedBuffer: nat
    var sentBatches: nat

    /** The value this object stands for. */
    ghost var agent: Agent

    /** The fields mirror the agent, the counters count its ledger, and the agent is lawful. */
    ghost predicate Valid()
      reads this
    {
      var l := agent.sender.ledger;
      && agent.filter.clocks == Clocks()
      && l.max == bufferMax && buffer == l.queue && batch == l.flight && |buffer| <= bufferMax
      && number == agent.sender.number && sentBatches == |agent.sender.log|
      && relayed == |l.accepted| && droppedBuffer == |l.dropped|
      && (batch != [] ==> number > 0)
      && !l.committed
      && Lawful(cfg, agent)
    }

    constructor (cfg: R.Config, robotId: string, bootId: string, bufferMax: nat, maxBatch: nat)
      ensures Valid()
      ensures this.cfg == cfg && this.bufferMax == bufferMax && this.maxBatch == maxBatch
      ensures agent == Agent(R.START, S.Start(robotId, bootId, bufferMax)) && !uplinkUp
      ensures seen == heartbeats == skippedRate == skippedSame == 0
    {
      this.cfg, this.bufferMax, this.maxBatch := cfg, bufferMax, maxBatch;
      buffer, batch := [], [];
      last, changedAt, seenAt, sentAt := map[], map[], map[], map[];
      number, uplinkUp := 0, false;
      seen, relayed, heartbeats, skippedRate, skippedSame, droppedBuffer, sentBatches := 0, 0, 0, 0, 0, 0, 0;
      agent := Agent(R.START, S.Start(robotId, bootId, bufferMax));
      new;
      S.StartNumbered<R.Row>(robotId, bootId, bufferMax);
    }

    /** The locked section of `offer`: a full buffer loses its oldest row, which is counted. */
    method Enqueue(row: R.Row)
      modifies this`buffer, this`droppedBuffer, this`relayed
      ensures buffer == Append(old(buffer), bufferMax, row)
      ensures droppedBuffer == old(droppedBuffer) + (if |old(buffer)| == bufferMax then 1 else 0)
      ensures relayed == old(relayed) + 1
    {
      if |buffer| == bufferMax {
        droppedBuffer := droppedBuffer + 1;
      }
      buffer := Append(buffer, bufferMax, row);
      relayed := relayed + 1;
    }

    ghost function Clocks(): R.Clocks
      reads this
    {
      R.Clocks(last, changedAt, seenAt, sentAt)
    }

    /** The filter section of `offer`: whether the sample is relayed, and under which flag. */
    method Admit(topic: string, now: real, value: R.Value) returns (d: R.Decision)
      modifies this`last, this`changedAt, this`seenAt, this`sentAt, this`heartbeats, this`skippedRate, this`skippedSame
      ensures d == R.Decide(cfg, old(Clocks()), topic, now, value)
      ensures Clocks() == R.Advance(cfg, old(Clocks()), topic, now, value)
      ensures heartbeats == old(heartbeats) + (if d == R.Relay(R.Heartbeat) then 1 else 0)
      ensures skippedRate == old(skippedRate) + (if d.RateSkipped? then 1 else 0)
      ensures skippedSame == old(skippedSame) + (if d.SameSkipped? then 1 else 0)
    {
      hide R.Same, R.MinGap, Topics.ShouldRelay;
      if !Topics.ShouldRelay(topic, cfg.wanted, cfg.unwanted) {
        return R.Excluded;
      }
      seenAt := seenAt[topic := now];

      var sent := if topic in sentAt then sentAt[topic] else 0.0;
      if now - sent < R.MinGap(cfg) {
        skippedRate := skippedRate + 1;
        return R.RateSkipped;
      }

      var same := topic in last && R.Same(last[topic], value, cfg.deadband);
      var flag := R.Change;
      if same {
        if !cfg.onChangeOnly {
        } else if cfg.heartbeat != 0.0 && now - sent >= cfg.heartbeat {
          flag := R.Heartbeat;
          heartbeats := heartbeats + 1;
        } else {
          skippedSame := skippedSame + 1;
          return R.SameSkipped;
        }
      } else {
        changedAt := changedAt[topic := now];
      }

      last := last[topic := value];
      sentAt := sentAt[topic := now];
      return R.Relay(flag);
    }

    /** Filter, and queue what is relayed. */
    method Sift(topic: string, now: real, value: R.Value) returns (d: R.Decision)
      modifies this`last, this`changedAt, this`seenAt, this`sentAt, this`heartbeats, this`skippedRate, this`skippedSame
      modifies this`buffer, this`droppedBuffer, this`relayed
      ensures d == R.Decide(cfg, old(Clocks()), topic, now, value)
      ensures Clocks() == R.Advance(cfg, old(Clocks()), topic, now, value)
      ensures heartbeats == old(heartbeats) + (if d == R.Relay(R.Heartbeat) then 1 else 0)
      ensures skippedRate == old(skippedRate) + (if d.RateSkipped? then 1 else 0)
      ensures skippedSame == old(skippedSame) + (if d.SameSkipped? then 1 else 0)
      ensures buffer ==
              if d.Relay? then Append(old(buffer), bufferMax, R.Row(topic, now, value, d.flag)) else old(buffer)
      ensures droppedBuffer == old(droppedBuffer) + (if d.Relay? && |old(buffer)| == bufferMax then 1 else 0)
      ensures relayed == old(relayed) + (if d.Relay? then 1 else 0)
    {
      hide Append, R.Decide, R.Advance;
      d := Admit(topic, now, value);
      if d.Relay? {
        Enqueue(R.Row(topic, now, value, d.flag));
      }
    }

    /** One sample from the source: the agent moves by `Offered`, and exactly one counter besides `seen`
        tells what happened. */
    method Offer(topic: string, now: real, value: R.Value)
      requires Valid()
      modifies this
      ensures Valid()
      ensures agent == Offered(cfg, old(agent), R.Offer(topic, now, value))
      ensures var d := R.Decide(cfg, old(agent).filter.clocks, topic, now, value);
              && seen == old(seen) + 1
              && heartbeats == old(heartbeats) + (if d == R.Relay(R.Heartbeat) then 1 else 0)
              && skippedRate == old(skippedRate) + (if d.RateSkipped? then 1 else 0)
              && skippedSame == old(skippedSame) + (if d.SameSkipped? then 1 else 0)
      ensures uplinkUp == old(uplinkUp)
    {
      hide Lawful, Offered, Append, R.Decide, R.Advance;
      OfferedLedger(cfg, agent, R.Offer(topic, now, value));
      OfferedLawful(cfg, agent, R.Offer(topic, now, value));
      seen := seen + 1;
      var d := Sift(topic, now, value);
      agent := Offered(cfg, agent, R.Offer(topic, now, value));
    }

    /** `_flush` up to publishing.  Nothing happens while the uplink is down. */
    method TakeBatch()
      requires Valid() && batch == []
      modifies this
      ensures Valid()
      ensures agent == if uplinkUp then old(agent).(sender := S.Take(old(agent).sender, maxBatch)) else old(agent)
      ensures uplinkUp == old(uplinkUp) && seen == old(seen) && heartbeats == old(heartbeats)
      ensures skippedRate == old(skippedRate) && skippedSame == old(skippedSame)
    {
      hide Lawful;
      if !uplinkUp {
        return;
      }
      FlushLawful(cfg, agent, maxBatch, []);
      agent := agent.(sender := S.Take(agent.sender, maxBatch));
      var n := Min(|buffer|, maxBatch);
      var i := 0;
      while i < n
        invariant 0 <= i <= n
        invariant buffer == old(buffer)[i..] && batch == old(buffer)[..i]
        modifies this`buffer, this`batch
      {
        batch := batch + [buffer[0]];
        buffer := buffer[1..];
        i := i + 1;
      }
      if batch != [] {
        number := number + 1;
      }
    }

    /** `_flush` after publishing: `results` holds the outcome on each uplink topic. */
    method Publish(results: seq<bool>)
      requires Valid()
      modifies this
      ensures Valid()
      ensures agent == old(agent).(sender := S.Published(old(agent).sender, results))
      ensures uplinkUp == old(uplinkUp) && seen == old(seen) && heartbeats == old(heartbeats)
      ensures skippedRate == old(skippedRate) && skippedSame == old(skippedSame)
    {
      hide Lawful, ExtendLeft, Reversed;
      if batch == [] {
        return;
      }
      FlushLawful(cfg, agent, maxBatch, results);
      agent := agent.(sender := S.Published(agent.sender, results));
      var ok := true;
      for i := 0 to |results|
        invariant ok <==> forall j :: 0 <= j < i ==> results[j]
      {
        if !results[i] {
          ok := false;
        }
      }
      if !ok {
        number := number - 1;
        buffer := ExtendLeft(buffer, bufferMax, Reversed(batch));
      } else {
        sentBatches := sentBatches + 1;
      }
      batch := [];
    }
  }

  /** Agent accounting in any valid state: every relayed row is sent, in hand, buffered, counted in
      `dropped_buffer`, or was cut when a failed batch was put back; and the first three, in that order,
      are a subsequence of what was relayed. */
  lemma {:induction false} RelayedRowsAreAccountedFor(b: Bridge)
    requires b.Valid()
    ensures var sent := S.Flatten(b.agent.sender.log);
            && b.relayed == |sent| + |b.batch| + |b.buffer| + b.droppedBuffer + |b.agent.sender.ledger.cut|
            && L.Subsequence(sent + b.batch + b.buffer, b.agent.filter.rows)
  {
    var l := b.agent.sender.ledger;
    assert |multiset(l.accepted) + multiset(l.replayed)| == |l.accepted|;
    assert |multiset(l.stored) + multiset(L.Pending(l)) + multiset(l.queue) + multiset(l.dropped) + multiset(l.cut)|
        == |l.stored| + |L.Pending(l)| + |l.queue| + |l.dropped| + |l.cut|;
    assert L.Outgoing(l) == S.Flatten(b.agent.sender.log) + b.batch + b.buffer;
  }

  /** A batch that fails while nothing else arrived goes back whole, and its number is taken back. */
  lemma {:induction false} QuietRetryLosesNothing<T(!new)>(s: S.Sender<T>, maxBatch: nat, results: seq<bool>)
    requires S.Numbered(s) && s.ledger.flight == []
    requires !S.AllOk(results)
    ensures S.Published(S.Take(s, maxBatch), results) == s
  {
    hide S.Flatten, S.AllOk, L.Balanced, L.InOrder, L.Complete, ExtendLeft, Reversed;
    var taken := S.Take(s, maxBatch);
    var l := taken.ledger;
    PutBackKeepsOldest(l.queue, l.max, l.flight);
    assert l.flight + l.queue == s.ledger.queue;
    assert (l.flight + l.queue)[..Min(|l.flight + l.queue|, l.max)] == s.ledger.queue;
    assert s.ledger.cut + (l.flight + l.queue)[Min(|l.flight + l.queue|, l.max)..] == s.ledger.cut;
  }
}
