/** The uplink end to end: any number of agents, a network that keeps every published batch and may
    deliver it late, out of order and any number of times, and the router's duplicate filter.

    Agents restart under a boot id never used before.  There is always an uplink topic.  Publishing on one is all
    or nothing by itself; with two it need not be, and the last lemma shows what a partial publish costs. */
module Uplink {
  import opened Deques
  import opened Options
  import D = Dedup
  import L = StreamLedger
  import R = Router
  import S = Sender

  datatype System<T(==)> = System(
    agents: map<string, S.Sender<T>>,
    boots: set<(string, string)>,
    wire: set<S.Message<T>>,
    arrived: seq<R.Arrival<T>>)

  datatype Event<T> =
    | Boot(robot: string, boot: string, bufferMax: nat)
    | Offer(robot: string, row: T)
    | Take(robot: string, maxBatch: nat)
    | Publish(robot: string, results: seq<bool>)
    | Deliver(message: S.Message<T>, sentAt: real, now: real)

  function Arriving<T>(m: S.Message<T>, sentAt: real, now: real): R.Arrival<T> {
    R.Arrival(m.key.robot, R.Envelope(Some(m.key.boot), Some(m.key.number), Some(sentAt), m.rows), now)
  }

  predicate Enabled<T(==)>(s: System<T>, e: Event<T>) {
    match e
    case Boot(robot, boot, _) => (robot, boot) !in s.boots
    case Offer(robot, _) => robot in s.agents
    case Take(robot, _) => robot in s.agents
    case Publish(robot, results) => robot in s.agents && |results| > 0
    case Deliver(m, _, _) => m in s.wire
  }

  function Step<T(==)>(s: System<T>, e: Event<T>): System<T> {
    if !Enabled(s, e) then s else
    match e
    case Boot(robot, boot, bufferMax) =>
      s.(agents := s.agents[robot := S.Start(robot, boot, bufferMax)], boots := s.boots + {(robot, boot)})
    case Offer(robot, row) =>
      s.(agents := s.agents[robot := S.Accept(s.agents[robot], row)])
    case Take(robot, maxBatch) =>
      s.(agents := s.agents[robot := S.Take(s.agents[robot], maxBatch)])
    case Publish(robot, results) =>
      s.(agents := s.agents[robot := S.Published(s.agents[robot], results)],
         wire := s.wire + S.Wire(s.agents[robot], results))
    case Deliver(m, sentAt, now) =>
      s.(arrived := s.arrived + [Arriving(m, sentAt, now)])
  }

  function Init<T(==)>(): System<T> {
    System(map[], {}, {}, [])
  }

  function Run<T(==)>(s: System<T>, events: seq<Event<T>>): System<T>
    decreases |events|
  {
    if events == [] then s else Run(Step(s, events[0]), events[1..])
  }

  /** Every publish reached all uplink topics or none. */
  predicate AllOrNothing<T>(events: seq<Event<T>>) {
    forall i :: 0 <= i < |events| && events[i].Publish? ==> !S.Partial(events[i].results)
  }

  // ---------------------------------------------------------------- invariant

  /** What an agent's current run has delivered. */
  datatype History<T> = History(boot: string, log: seq<seq<T>>)

  function Histories<T>(s: System<T>): map<string, History<T>> {
    map r | r in s.agents :: History(s.agents[r].boot, s.agents[r].log)
  }

  function Numbered<T>(robot: string, h: History<T>, i: nat): S.Message<T>
    requires i < |h.log|
  {
    S.Message(S.Key(robot, h.boot, i + 1), h.log[i])
  }

  /** Every batch an agent's current run counts as delivered is on the wire, and beyond those at most batches
      under the next number, which the agent took back. */
  ghost predicate WireCovers<T(!new)>(wire: set<S.Message<T>>, boots: set<(string, string)>,
                                      hs: map<string, History<T>>) {
    && (forall m :: m in wire ==> (m.key.robot, m.key.boot) in boots)
    && (forall r :: r in hs ==> (r, hs[r].boot) in boots)
    && (forall m :: m in wire && m.key.robot in hs && hs[m.key.robot].boot == m.key.boot ==>
          1 <= m.key.number <= |hs[m.key.robot].log| + 1)
    && (forall r, i: nat :: r in hs && i < |hs[r].log| ==> Numbered(r, hs[r], i) in wire)
  }

  /** Whatever is on the wire from an agent's current run is one of the batches it counts as delivered, and
      no two batches on the wire share a key. */
  ghost predicate WireMatches<T(!new)>(wire: set<S.Message<T>>, boots: set<(string, string)>,
                                      hs: map<string, History<T>>) {
    && (forall m :: m in wire ==> (m.key.robot, m.key.boot) in boots)
    && (forall r :: r in hs ==> (r, hs[r].boot) in boots)
    && (forall m :: m in wire && m.key.robot in hs && hs[m.key.robot].boot == m.key.boot ==>
          1 <= m.key.number <= |hs[m.key.robot].log|)
    && (forall r, i: nat :: r in hs && i < |hs[r].log| ==> Numbered(r, hs[r], i) in wire)
    && (forall m, n :: m in wire && n in wire && m.key == n.key ==> m == n)
  }

  ghost predicate AgentsAreNumbered<T(!new)>(s: System<T>) {
    forall r :: r in s.agents ==> s.agents[r].robot == r && S.Numbered(s.agents[r])
  }

  /** The batch a keyed arrival carries. */
  function MessageOf<T>(a: R.Arrival<T>): S.Message<T>
    requires R.KeyOf(a.robot, a.payload).Some?
  {
    S.Message(R.KeyOf(a.robot, a.payload).value, a.payload.rows)
  }

  predicate WasSent<T(==)>(wire: set<S.Message<T>>, a: R.Arrival<T>) {
    R.KeyOf(a.robot, a.payload).Some? && MessageOf(a) in wire
  }

  ghost predicate ArrivalsWereSent<T(!new)>(s: System<T>) {
    forall i :: 0 <= i < |s.arrived| ==> WasSent(s.wire, s.arrived[i])
  }

  ghost predicate Inv<T(!new)>(s: System<T>) {
    AgentsAreNumbered(s) && WireCovers(s.wire, s.boots, Histories(s)) && ArrivalsWereSent(s)
  }

  function SenderAfter<T(==)>(s: System<T>, e: Event<T>): S.Sender<T>
    requires Enabled(s, e) && !e.Deliver?
  {
    match e
    case Boot(robot, boot, bufferMax) => S.Start(robot, boot, bufferMax)
    case Offer(robot, row) => S.Accept(s.agents[robot], row)
    case Take(robot, maxBatch) => S.Take(s.agents[robot], maxBatch)
    case Publish(robot, results) => S.Published(s.agents[robot], results)
  }

  lemma {:induction false} SenderStaysNumbered<T(!new)>(s: System<T>, e: Event<T>)
    requires AgentsAreNumbered(s) && Enabled(s, e) && !e.Deliver?
    ensures SenderAfter(s, e).robot == e.robot && S.Numbered(SenderAfter(s, e))
  {
    match e
    case Boot(robot, boot, bufferMax) => S.StartNumbered<T>(robot, boot, bufferMax);
    case Offer(robot, row) => S.AcceptNumbered(s.agents[robot], row);
    case Take(robot, maxBatch) => S.TakeNumbered(s.agents[robot], maxBatch);
    case Publish(robot, results) => S.PublishedNumbered(s.agents[robot], results);
    hide S.Numbered, L.Step;
  }

  lemma {:induction false} AgentsStayNumbered<T(!new)>(s: System<T>, e: Event<T>)
    requires AgentsAreNumbered(s)
    ensures AgentsAreNumbered(Step(s, e))
  {
    hide S.Numbered, S.Start, S.Accept, S.Take, S.Published;
    if Enabled(s, e) && !e.Deliver? {
      SenderStaysNumbered(s, e);
      assert Step(s, e).agents == s.agents[e.robot := SenderAfter(s, e)];
    }
  }

  /** A new run starts with nothing on the wire. */
  lemma {:induction false} FreshBoot<T(!new)>(wire: set<S.Message<T>>, boots: set<(string, string)>,
                                       hs: map<string, History<T>>,
                                              robot: string, boot: string)
    requires (robot, boot) !in boots
    ensures var boots', hs' := boots + {(robot, boot)}, hs[robot := History(boot, [])];
            && (WireCovers(wire, boots, hs) ==> WireCovers(wire, boots', hs'))
            && (WireMatches(wire, boots, hs) ==> WireMatches(wire, boots', hs'))
  {
  }

  /** A batch numbered one past the log joins the wire, and with it the log, or not. */
  lemma {:induction false} SentBatchCovers<T(!new)>(wire: set<S.Message<T>>, boots: set<(string, string)>,
                                             hs: map<string, History<T>>, robot: string, rows: seq<T>)
    requires WireCovers(wire, boots, hs) && robot in hs
    ensures var h := hs[robot];
            var wire' := wire + {S.Message(S.Key(robot, h.boot, |h.log| + 1), rows)};
            && WireCovers(wire', boots, hs)
            && WireCovers(wire', boots, hs[robot := History(h.boot, h.log + [rows])])
  {
    var h := hs[robot];
    var h' := History(h.boot, h.log + [rows]);
    forall i: nat | i < |h'.log|
      ensures Numbered(robot, h', i) in wire + {S.Message(S.Key(robot, h.boot, |h.log| + 1), rows)}
    {
      if i < |h.log| {
        assert Numbered(robot, h', i) == Numbered(robot, h, i);
      }
    }
  }

  lemma {:induction false} DeliveredBatchMatches<T(!new)>(wire: set<S.Message<T>>, boots: set<(string, string)>,
                                                   hs: map<string, History<T>>, robot: string, rows: seq<T>)
    requires WireMatches(wire, boots, hs) && robot in hs
    ensures var h := hs[robot];
            WireMatches(wire + {S.Message(S.Key(robot, h.boot, |h.log| + 1), rows)}, boots,
                        hs[robot := History(h.boot, h.log + [rows])])
  {
    var h := hs[robot];
    var h' := History(h.boot, h.log + [rows]);
    forall i: nat | i < |h'.log|
      ensures Numbered(robot, h', i) in wire + {S.Message(S.Key(robot, h.boot, |h.log| + 1), rows)}
    {
      if i < |h.log| {
        assert Numbered(robot, h', i) == Numbered(robot, h, i);
      }
    }
  }

  /** What one publish does to the wire and the histories, by its outcome. */
  lemma {:induction false} PublishMoves<T(!new)>(s: System<T>, robot: string, results: seq<bool>)
    requires AgentsAreNumbered(s) && robot in s.agents && |results| > 0
    ensures var a, h, s' := s.agents[robot], Histories(s)[robot], Step(s, Publish(robot, results));
            var m := S.Message(S.Key(robot, h.boot, |h.log| + 1), a.ledger.flight);
            && s'.boots == s.boots
            && (if a.ledger.flight == [] || S.NoneOk(results) then s'.wire == s.wire && Histories(s') == Histories(s)
                else if S.AllOk(results) then
                  s'.wire == s.wire + {m}
                  && Histories(s') == Histories(s)[robot := History(h.boot, h.log + [a.ledger.flight])]
                else s'.wire == s.wire + {m} && Histories(s') == Histories(s))
  {
    var a, h, s' := s.agents[robot], Histories(s)[robot], Step(s, Publish(robot, results));
    assert S.Numbered(a) && a.robot == robot;
    assert a.ledger.flight != [] ==> a.number == |h.log| + 1;
    assert S.AllOk(results) ==> !S.NoneOk(results) by { assert results[0] || !results[0]; }
    hide S.Numbered, L.Step, AgentsAreNumbered, S.AllOk, S.NoneOk;
    if a.ledger.flight != [] && S.AllOk(results) {
      assert Histories(s') == Histories(s)[robot := History(h.boot, h.log + [a.ledger.flight])];
    } else {
      assert Histories(s') == Histories(s);
    }
  }

  lemma {:induction false} StepCovers<T(!new)>(s: System<T>, e: Event<T>)
    requires AgentsAreNumbered(s) && WireCovers(s.wire, s.boots, Histories(s))
    ensures var s' := Step(s, e); WireCovers(s'.wire, s'.boots, Histories(s'))
  {
    hide S.Numbered, L.Step, WireCovers, WireMatches;
    var s' := Step(s, e);
    if !Enabled(s, e) {
    } else if e.Boot? {
      FreshBoot(s.wire, s.boots, Histories(s), e.robot, e.boot);
      assert Histories(s') == Histories(s)[e.robot := History(e.boot, [])];
    } else if e.Publish? {
      PublishMoves(s, e.robot, e.results);
      SentBatchCovers(s.wire, s.boots, Histories(s), e.robot, s.agents[e.robot].ledger.flight);
    } else {
      assert Histories(s') == Histories(s);
    }
  }

  lemma {:induction false} StepMatches<T(!new)>(s: System<T>, e: Event<T>)
    requires AgentsAreNumbered(s) && WireMatches(s.wire, s.boots, Histories(s))
    requires e.Publish? ==> !S.Partial(e.results)
    ensures var s' := Step(s, e); WireMatches(s'.wire, s'.boots, Histories(s'))
  {
    hide S.Numbered, L.Step, WireCovers, WireMatches;
    var s' := Step(s, e);
    if !Enabled(s, e) {
    } else if e.Boot? {
      FreshBoot(s.wire, s.boots, Histories(s), e.robot, e.boot);
      assert Histories(s') == Histories(s)[e.robot := History(e.boot, [])];
    } else if e.Publish? {
      PublishMoves(s, e.robot, e.results);
      DeliveredBatchMatches(s.wire, s.boots, Histories(s), e.robot, s.agents[e.robot].ledger.flight);
    } else {
      assert Histories(s') == Histories(s);
    }
  }

  lemma {:induction false} ArrivalsStaySent<T(!new)>(s: System<T>, e: Event<T>)
    requires ArrivalsWereSent(s)
    ensures ArrivalsWereSent(Step(s, e))
  {
    hide S.Start, S.Accept, S.Take, S.Published, S.Wire;
  }

  lemma {:induction false} StepKeepsInv<T(!new)>(s: System<T>, e: Event<T>)
    requires Inv(s)
    ensures Inv(Step(s, e))
  {
    AgentsStayNumbered(s, e);
    StepCovers(s, e);
    ArrivalsStaySent(s, e);
    hide AgentsAreNumbered, WireCovers, ArrivalsWereSent, Step;
  }

  /** Over every run, however its publishes came out. */
  lemma {:induction false} RunKeepsInv<T(!new)>(s: System<T>, events: seq<Event<T>>)
    requires Inv(s)
    ensures Inv(Run(s, events))
    decreases |events|
  {
    hide Step, Inv;
    if events != [] {
      StepKeepsInv(s, events[0]);
      RunKeepsInv(Step(s, events[0]), events[1..]);
    }
  }

  /** Over every run with all-or-nothing publishing, the wire holds each agent run's batches and no others, one to
      a key. */
  lemma {:induction false} WholeRunMatches<T(!new)>(s: System<T>, events: seq<Event<T>>)
    requires Inv(s) && WireMatches(s.wire, s.boots, Histories(s)) && AllOrNothing(events)
    ensures var s' := Run(s, events); WireMatches(s'.wire, s'.boots, Histories(s'))
    decreases |events|
  {
    hide Step, WireMatches, WireCovers, AgentsAreNumbered, ArrivalsWereSent, Histories;
    if events != [] {
      StepKeepsInv(s, events[0]);
      StepMatches(s, events[0]);
      WholeRunMatches(Step(s, events[0]), events[1..]);
    }
  }

  lemma {:induction false} InitInv<T(!new)>()
    ensures var s := Init<T>(); Inv(s) && WireMatches(s.wire, s.boots, Histories(s))
  {
  }

  // ---------------------------------------------------------------- exactly once

  /** Each call of `on_raw` belongs to one accepted key and carries the batch published under it. */
  ghost predicate CallsCarryBatches<T(!new)>(st: R.State<T>, wire: set<S.Message<T>>) {
    && |st.calls| == |st.window.accepted|
    && forall i :: 0 <= i < |st.calls| ==>
         st.calls[i].robot == st.window.accepted[i].robot && S.Message(st.window.accepted[i], st.calls[i].rows) in wire
  }

  lemma {:induction false} ArrivalsBecomeCalls<T(!new)>(size: nat, arrived: seq<R.Arrival<T>>, wire: set<S.Message<T>>)
    requires forall i :: 0 <= i < |arrived| ==> WasSent(wire, arrived[i])
    ensures CallsCarryBatches(R.Run(size, arrived), wire)
  {
    if arrived != [] {
      ArrivalsBecomeCalls(size, arrived[..|arrived| - 1], wire);
      assert WasSent(wire, arrived[|arrived| - 1]);
    }
  }

  /** Exactly one call of `on_raw` belongs to the batch, and it carries the batch's rows. */
  ghost predicate ReachedOnce<T(!new)>(st: R.State<T>, m: S.Message<T>) {
    && |st.calls| == |st.window.accepted|
    && exists i :: 0 <= i < |st.calls| && st.window.accepted[i] == m.key && st.calls[i].rows == m.rows
                   && forall j :: 0 <= j < |st.calls| && st.window.accepted[j] == m.key ==> j == i
  }

  lemma {:induction false} ArrivedBatchReachedOnce<T(!new)>(size: nat, arrived: seq<R.Arrival<T>>,
                                                     wire: set<S.Message<T>>, m: S.Message<T>)
    requires forall i :: 0 <= i < |arrived| ==> WasSent(wire, arrived[i])
    requires forall n :: n in wire && n.key == m.key ==> n == m
    requires m.key in R.Keys(arrived) && D.Timely(size, R.Keys(arrived))
    ensures ReachedOnce(R.Run(size, arrived), m)
  {
    var keys, st := R.Keys(arrived), R.Run(size, arrived);
    R.RunFollowsDedup(size, arrived);
    ArrivalsBecomeCalls(size, arrived, wire);
    D.AcceptsWhatArrives(size, keys);
    D.ExactlyOnceIffTimely(size, keys);
    hide R.Run, R.Keys, D.Run, D.Timely, Distinct, Firsts, WasSent;
    OneCall(st.window.accepted, st.calls, wire, m);
  }

  lemma {:induction false} OneCall<T(!new)>(accepted: seq<S.Key>, calls: seq<R.RawCall<T>>, wire: set<S.Message<T>>,
                                     m: S.Message<T>)
    requires |accepted| == |calls| && Distinct(accepted) && m.key in accepted
    requires forall i :: 0 <= i < |calls| ==> S.Message(accepted[i], calls[i].rows) in wire
    requires forall n :: n in wire && n.key == m.key ==> n == m
    ensures exists i :: 0 <= i < |calls| && accepted[i] == m.key && calls[i].rows == m.rows
                        && forall j :: 0 <= j < |calls| && accepted[j] == m.key ==> j == i
  {
    var i :| 0 <= i < |accepted| && accepted[i] == m.key;
    assert S.Message(accepted[i], calls[i].rows) == m;
  }

  /** The rows that arrived first under a key. */
  function FirstRows<T>(arrived: seq<R.Arrival<T>>, k: S.Key): Option<seq<T>> {
    if arrived == [] then None else
    var before, last := FirstRows(arrived[..|arrived| - 1], k), arrived[|arrived| - 1];
    if before.Some? then before
    else if R.KeyOf(last.robot, last.payload) == Some(k) then Some(last.payload.rows)
    else None
  }

  ghost predicate AllKeyed<T(!new)>(arrived: seq<R.Arrival<T>>) {
    forall i :: 0 <= i < |arrived| ==> R.KeyOf(arrived[i].robot, arrived[i].payload).Some?
  }

  lemma {:induction false} FirstRowsArrived<T>(arrived: seq<R.Arrival<T>>, k: S.Key)
    ensures FirstRows(arrived, k).Some? <==> k in R.Keys(arrived)
  {
    if arrived != [] {
      FirstRowsArrived(arrived[..|arrived| - 1], k);
    }
  }

  ghost predicate CallsCarryFirst<T(!new)>(st: R.State<T>, arrived: seq<R.Arrival<T>>) {
    && |st.calls| == |st.window.accepted|
    && forall i :: 0 <= i < |st.calls| ==> FirstRows(arrived, st.window.accepted[i]) == Some(st.calls[i].rows)
  }

  lemma {:induction false} OneArrival<T(!new)>(size: nat, init: seq<R.Arrival<T>>, last: R.Arrival<T>, k: S.Key)
    requires R.KeyOf(last.robot, last.payload) == Some(k) && CallsCarryFirst(R.Run(size, init), init)
    requires k in R.Run(size, init).window.recent || FirstRows(init, k).None?
    ensures CallsCarryFirst(R.Run(size, init + [last]), init + [last])
  {
    var arrived := init + [last];
    assert arrived[..|arrived| - 1] == init;
    var st, st' := R.Run(size, init), R.Run(size, arrived);
    assert st' == R.Applied(size, st, last.robot, last.payload, last.now);
    hide R.Run, LastN;
    forall i | 0 <= i < |st.calls| ensures FirstRows(arrived, st.window.accepted[i]) == Some(st.calls[i].rows) {
    }
  }

  /** Under timely repeats, a key outside the window has not arrived before. */
  lemma {:induction false} OutsideIsNew<T>(size: nat, init: seq<R.Arrival<T>>, last: R.Arrival<T>, k: S.Key)
    requires R.KeyOf(last.robot, last.payload) == Some(k) && D.Timely(size, R.Keys(init + [last]))
    requires k !in R.Run(size, init).window.recent
    ensures k !in R.Keys(init)
  {
    var arrived := init + [last];
    assert arrived[..|arrived| - 1] == init;
    var keys := R.Keys(arrived);
    assert keys == R.Keys(init) + [k] && keys[..|keys| - 1] == R.Keys(init);
    R.RunFollowsDedup(size, init);
    D.AcceptsWhatArrives(size, R.Keys(init));
    D.ExactlyOnceIffTimely(size, keys);
    var before, after := D.Run(size, R.Keys(init)), D.Run(size, keys);
    assert after == D.Arrive(size, before, k);
    hide D.Run, R.Keys, R.Run, D.Timely, Firsts;
    assert after.accepted == before.accepted + [k];
    forall i | 0 <= i < |before.accepted| ensures before.accepted[i] != k {
      assert after.accepted[i] != after.accepted[|before.accepted|];
    }
  }

  lemma {:induction false} TimelyCallsCarryFirst<T(!new)>(size: nat, arrived: seq<R.Arrival<T>>)
    requires AllKeyed(arrived) && D.Timely(size, R.Keys(arrived))
    ensures CallsCarryFirst(R.Run(size, arrived), arrived)
  {
    if arrived != [] {
      var init, last := arrived[..|arrived| - 1], arrived[|arrived| - 1];
      var k, keys := R.KeyOf(last.robot, last.payload).value, R.Keys(arrived);
      assert arrived == init + [last] && keys[..|keys| - 1] == R.Keys(init);
      D.TimelyPrefix(size, keys);
      hide D.Timely, R.Keys, R.Run, CallsCarryFirst;
      TimelyCallsCarryFirst(size, init);
      FirstRowsArrived(init, k);
      if k !in R.Run(size, init).window.recent {
        OutsideIsNew(size, init, last, k);
      }
      OneArrival(size, init, last, k);
    }
  }

  /** Over every run, however each publish came out on each topic, and with every repeat timely: a batch whose
      key arrived reaches `on_raw` exactly once and with its rows if and only if the first arrival under its
      key carries its rows. */
  lemma {:induction false} FirstArrivalWins<T(!new)>(size: nat, events: seq<Event<T>>, m: S.Message<T>)
    requires D.Timely(size, R.Keys(Run(Init<T>(), events).arrived))
    requires m.key in R.Keys(Run(Init<T>(), events).arrived)
    ensures var s := Run(Init<T>(), events);
            ReachedOnce(R.Run(size, s.arrived), m) <==> FirstRows(s.arrived, m.key) == Some(m.rows)
  {
    var s := Run(Init<T>(), events);
    InitInv<T>();
    RunKeepsInv(Init<T>(), events);
    assert forall i :: 0 <= i < |s.arrived| ==> WasSent(s.wire, s.arrived[i]);
    TimelyCallsCarryFirst(size, s.arrived);
    R.RunFollowsDedup(size, s.arrived);
    D.AcceptsWhatArrives(size, R.Keys(s.arrived));
    D.ExactlyOnceIffTimely(size, R.Keys(s.arrived));
    hide Run, R.Run, R.Keys, D.Run, D.Timely, Firsts, FirstRows, WasSent, AllKeyed;
    FirstIsTheCall(R.Run(size, s.arrived), s.arrived, m);
  }

  lemma {:induction false} FirstIsTheCall<T(!new)>(st: R.State<T>, arrived: seq<R.Arrival<T>>, m: S.Message<T>)
    requires CallsCarryFirst(st, arrived) && Distinct(st.window.accepted) && m.key in st.window.accepted
    ensures ReachedOnce(st, m) <==> FirstRows(arrived, m.key) == Some(m.rows)
  {
    hide FirstRows;
    var i :| 0 <= i < |st.window.accepted| && st.window.accepted[i] == m.key;
  }

  /** The uplink end to end, over every run.  Each call carries a published batch under its key; no key reaches
      `on_raw` twice if and only if every repeat is timely; and then each published batch whose key arrives, over
      whichever topic and however often, reaches `on_raw` exactly once with its rows if and only if it was the
      first to arrive under its key, which all-or-nothing publishing guarantees. */
  lemma {:induction false} UplinkIsExactlyOnce<T(!new)>(size: nat, events: seq<Event<T>>)
    ensures var s := Run(Init<T>(), events);
            var st := R.Run(size, s.arrived);
            && CallsCarryBatches(st, s.wire)
            && (Distinct(st.window.accepted) <==> D.Timely(size, R.Keys(s.arrived)))
            && (D.Timely(size, R.Keys(s.arrived)) ==>
                  forall m :: m in s.wire && m.key in R.Keys(s.arrived) ==>
                    && (ReachedOnce(st, m) <==> FirstRows(s.arrived, m.key) == Some(m.rows))
                    && (AllOrNothing(events) ==> ReachedOnce(st, m)))
  {
    var s := Run(Init<T>(), events);
    InitInv<T>();
    RunKeepsInv(Init<T>(), events);
    ArrivalsBecomeCalls(size, s.arrived, s.wire);
    R.RunFollowsDedup(size, s.arrived);
    D.ExactlyOnceIffTimely(size, R.Keys(s.arrived));
    hide Run, R.Run, R.Keys, D.Timely, Distinct, FirstRows, ReachedOnce, CallsCarryBatches, AllOrNothing,
         AgentsAreNumbered, WireCovers;
    if D.Timely(size, R.Keys(s.arrived)) {
      forall m | m in s.wire && m.key in R.Keys(s.arrived)
        ensures ReachedOnce(R.Run(size, s.arrived), m) <==> FirstRows(s.arrived, m.key) == Some(m.rows)
        ensures AllOrNothing(events) ==> ReachedOnce(R.Run(size, s.arrived), m)
      {
        FirstArrivalWins(size, events, m);
        if AllOrNothing(events) {
          WholeRunReaches(size, events, m);
        }
      }
    }
  }

  lemma {:induction false} WholeRunReaches<T(!new)>(size: nat, events: seq<Event<T>>, m: S.Message<T>)
    requires AllOrNothing(events)
    requires var s := Run(Init<T>(), events);
             m in s.wire && m.key in R.Keys(s.arrived) && D.Timely(size, R.Keys(s.arrived))
    ensures var s := Run(Init<T>(), events); ReachedOnce(R.Run(size, s.arrived), m)
  {
    var s := Run(Init<T>(), events);
    InitInv<T>();
    RunKeepsInv(Init<T>(), events);
    WholeRunMatches(Init<T>(), events);
    hide Run, R.Run, R.Keys, D.Timely, ReachedOnce;
    ArrivedBatchReachedOnce(size, s.arrived, s.wire, m);
  }

  /** From the vehicle's side, over every run: the rows the agent counts as sent are its batches in order; once
      every batch of the current run has arrived, each of them reached the archive exactly once if and only if
      nothing else arrived under its key before it, which all-or-nothing publishing guarantees. */
  lemma {:induction false} SentRowsReachTheArchive<T(!new)>(size: nat, events: seq<Event<T>>, robot: string)
    requires var s := Run(Init<T>(), events);
             && robot in s.agents
             && D.Timely(size, R.Keys(s.arrived))
             && forall m :: m in s.wire && m.key.robot == robot ==> m.key in R.Keys(s.arrived)
    ensures var s := Run(Init<T>(), events);
            var a := s.agents[robot];
            && S.Flatten(a.log) == a.ledger.stored
            && L.Subsequence(a.ledger.stored + a.ledger.flight + a.ledger.queue, a.ledger.accepted)
            && forall i: nat :: i < |a.log| ==>
                 var m := S.Message(S.Key(robot, a.boot, i + 1), a.log[i]);
                 && (ReachedOnce(R.Run(size, s.arrived), m) <==> FirstRows(s.arrived, m.key) == Some(m.rows))
                 && (AllOrNothing(events) ==> ReachedOnce(R.Run(size, s.arrived), m))
  {
    var s := Run(Init<T>(), events);
    var a := s.agents[robot];
    InitInv<T>();
    RunKeepsInv(Init<T>(), events);
    assert S.Numbered(a);
    assert L.Outgoing(a.ledger) == a.ledger.stored + a.ledger.flight + a.ledger.queue;
    UplinkIsExactlyOnce(size, events);
    forall i: nat | i < |a.log|
      ensures S.Message(S.Key(robot, a.boot, i + 1), a.log[i]) in s.wire
    {
      assert Numbered(robot, Histories(s)[robot], i) in s.wire;
    }
    hide Run, R.Run, R.Keys, D.Timely, ReachedOnce, FirstRows, AllOrNothing, WireCovers, S.Numbered, Distinct,
         CallsCarryBatches;
  }

  // ---------------------------------------------------------------- the partial publish

  const ROW1 := S.Message(S.Key("r", "b", 1), [1])
  const ROWS12 := S.Message(S.Key("r", "b", 1), [1, 2])

  function FirstFlush(): seq<Event<int>> {
    [Boot("r", "b", 9), Offer("r", 1), Take("r", 5), Publish("r", [true, false]), Deliver(ROW1, 0.0, 0.0)]
  }

  function SecondFlush(): seq<Event<int>> {
    [Offer("r", 2), Take("r", 5), Publish("r", [true, true]), Deliver(ROWS12, 0.0, 0.0)]
  }

  /** With two uplink topics, one accepting and the other refusing the batch, the number is taken back and
      reused for a larger batch.  The router takes that one for a repeat: row 2 counts as sent on the vehicle,
      its batch arrives, every repeat is timely, and yet no call of `on_raw` carries it. */
  lemma {:induction false} PartialPublishLosesRows()
    ensures var s := Run(Run(Init<int>(), FirstFlush()), SecondFlush());
            && "r" in s.agents && s.agents["r"].ledger.stored == [1, 2]
            && s.arrived == [Arriving(ROW1, 0.0, 0.0), Arriving(ROWS12, 0.0, 0.0)]
            && D.Timely(64, R.Keys(s.arrived))
            && R.Run(64, s.arrived).calls == [R.RawCall("r", [1], Some(0.0))]
  {
    PartialLast();
    PartialFirstHalf();
    PartialSecondHalf();
    PartialArrivals();
    hide Run, R.Run, R.Keys, D.Timely, S.Published, PartialRetry, FirstFlush, SecondFlush;
  }

  /** The agent of that run after the partial publish. */
  function PartialRetry(): S.Sender<int> {
    S.Published(S.Take(S.Accept(S.Start("r", "b", 9), 1), 5), [true, false])
  }

  lemma {:induction false} PartialAgent()
    ensures var a := PartialRetry();
            && a.ledger.queue == [1] && a.ledger.flight == [] && a.ledger.stored == [] && a.number == 0
            && a.robot == "r" && a.boot == "b"
            && a.ledger.max == 9 && !a.ledger.committed
            && S.Wire(S.Take(S.Accept(S.Start("r", "b", 9), 1), 5), [true, false])
              == {S.Message(S.Key("r", "b", 1), [1])}
  {
    var taken := S.Take(S.Accept(S.Start("r", "b", 9), 1), 5);
    assert taken.ledger.flight == [1] && taken.ledger.queue == [] && taken.number == 1;
    L.PutBackCutsNewest(taken.ledger);
    assert !S.AllOk([true, false]) by { assert ![true, false][1]; }
    assert !S.NoneOk([true, false]) by { assert [true, false][0]; }
  }

  lemma {:induction false} PartialLast()
    ensures var last := S.Take(S.Accept(PartialRetry(), 2), 5);
            && S.Wire(last, [true, true]) == {S.Message(S.Key("r", "b", 1), [1, 2])}
            && last.ledger.flight == [1, 2]
            && S.Published(last, [true, true]).ledger.stored == [1, 2]
  {
    PartialAgent();
    RetryTakes(PartialRetry());
    hide PartialRetry, S.Accept, S.Take;
    BothSend(S.Take(S.Accept(PartialRetry(), 2), 5));
  }

  lemma {:induction false} RetryTakes(a: S.Sender<int>)
    requires a.ledger.queue == [1] && a.ledger.flight == [] && a.ledger.stored == [] && a.number == 0
    requires a.ledger.max == 9 && !a.ledger.committed && a.robot == "r" && a.boot == "b"
    ensures var last := S.Take(S.Accept(a, 2), 5);
            && last.ledger.flight == [1, 2] && last.ledger.stored == [] && !last.ledger.committed
            && last.number == 1 && last.robot == "r" && last.boot == "b"
  {
    var b := S.Accept(a, 2);
    assert b.ledger.queue == [1, 2] && b.ledger.flight == [] && b.ledger.stored == [];
    hide S.Accept;
    assert b.ledger.queue[..2] == [1, 2];
  }

  lemma {:induction false} BothSend(last: S.Sender<int>)
    requires last.ledger.flight == [1, 2] && last.ledger.stored == [] && !last.ledger.committed
    requires last.number == 1 && last.robot == "r" && last.boot == "b"
    ensures S.Wire(last, [true, true]) == {S.Message(S.Key("r", "b", 1), [1, 2])}
    ensures S.Published(last, [true, true]).ledger.stored == [1, 2]
  {
    assert !S.NoneOk([true, true]) by { assert [true, true][0]; }
  }

  /** A system of one agent. */
  function Alone(a: S.Sender<int>, wire: set<S.Message<int>>, arrived: seq<R.Arrival<int>>): System<int> {
    System(map["r" := a], {("r", "b")}, wire, arrived)
  }

  lemma {:induction false} AloneSteps(a: S.Sender<int>, wire: set<S.Message<int>>, arrived: seq<R.Arrival<int>>)
    ensures Step(Alone(a, wire, arrived), Take("r", 5)) == Alone(S.Take(a, 5), wire, arrived)
    ensures Step(Alone(a, wire, arrived), Publish("r", [true, false]))
            == Alone(S.Published(a, [true, false]), wire + S.Wire(a, [true, false]), arrived)
    ensures ROW1 in wire ==>
              Step(Alone(a, wire, arrived), Deliver(ROW1, 0.0, 0.0))
                == Alone(a, wire, arrived + [Arriving(ROW1, 0.0, 0.0)])
  {
    hide S.Take, S.Published, S.Wire, Arriving;
  }

  lemma {:induction false} AloneStarts(a: S.Sender<int>)
    ensures Step(Init<int>(), Boot("r", "b", 9)) == Alone(S.Start("r", "b", 9), {}, [])
    ensures Step(Alone(a, {}, []), Offer("r", 1)) == Alone(S.Accept(a, 1), {}, [])
  {
    hide S.Start, S.Accept;
  }

  lemma {:induction false} PartialFirstHalf()
    ensures Run(Init<int>(), FirstFlush())
            == System(map["r" := PartialRetry()], {("r", "b")}, {ROW1}, [Arriving(ROW1, 0.0, 0.0)])
  {
    PartialAgent();
    var a0 := S.Start("r", "b", 9);
    var a1 := S.Accept(a0, 1);
    var a2 := S.Take(a1, 5);
    assert S.Published(a2, [true, false]) == PartialRetry();
    hide S.Start, S.Accept, S.Take, S.Wire, S.Published, Arriving, PartialRetry, Run, Step, Init;
    AloneStarts(a0);
    AloneSteps(a1, {}, []);
    AloneSteps(a2, {}, []);
    AloneSteps(PartialRetry(), {ROW1}, []);
    assert {} + {ROW1} == {ROW1} && [] + [Arriving(ROW1, 0.0, 0.0)] == [Arriving(ROW1, 0.0, 0.0)];
    RunVisits([Init<int>(), Alone(a0, {}, []), Alone(a1, {}, []), Alone(a2, {}, []), Alone(PartialRetry(), {ROW1}, []),
               Alone(PartialRetry(), {ROW1}, [Arriving(ROW1, 0.0, 0.0)])], FirstFlush());
  }

  lemma {:induction false} PartialSecondHalf()
    ensures var last := S.Take(S.Accept(PartialRetry(), 2), 5);
            Run(System(map["r" := PartialRetry()], {("r", "b")}, {ROW1}, [Arriving(ROW1, 0.0, 0.0)]), SecondFlush())
            == System(map["r" := S.Published(last, [true, true])], {("r", "b")}, {ROW1} + {ROWS12},
                      [Arriving(ROW1, 0.0, 0.0), Arriving(ROWS12, 0.0, 0.0)])
  {
    PartialLast();
    hide S.Wire, S.Accept, S.Take, S.Published, Arriving, PartialRetry, Run;
    SecondFlushFrom(PartialRetry(), {ROW1});
  }

  lemma {:induction false} SecondFlushFrom(a: S.Sender<int>, wire: set<S.Message<int>>)
    requires ROWS12 in S.Wire(S.Take(S.Accept(a, 2), 5), [true, true])
    ensures var last := S.Take(S.Accept(a, 2), 5);
            Run(System(map["r" := a], {("r", "b")}, wire, [Arriving(ROW1, 0.0, 0.0)]), SecondFlush())
            == System(map["r" := S.Published(last, [true, true])], {("r", "b")}, wire + S.Wire(last, [true, true]),
                      [Arriving(ROW1, 0.0, 0.0), Arriving(ROWS12, 0.0, 0.0)])
  {
    hide S.Wire, S.Accept, S.Take, S.Published, Arriving;
    var boots, n1, n2 := {("r", "b")}, Arriving(ROW1, 0.0, 0.0), Arriving(ROWS12, 0.0, 0.0);
    var last := S.Take(S.Accept(a, 2), 5);
    var wire' := wire + S.Wire(last, [true, true]);
    var u := [System(map["r" := a], boots, wire, [n1]),
              System(map["r" := S.Accept(a, 2)], boots, wire, [n1]),
              System(map["r" := last], boots, wire, [n1]),
              System(map["r" := S.Published(last, [true, true])], boots, wire', [n1]),
              System(map["r" := S.Published(last, [true, true])], boots, wire', [n1, n2])];
    RunVisits(u, SecondFlush());
  }

  lemma {:induction false} FirstArrival()
    ensures var key, a := S.Key("r", "b", 1), Arriving(ROW1, 0.0, 0.0);
            && R.Keys([a]) == [key]
            && R.Run(64, [a]).window == D.Filter([key], [key])
            && R.Run(64, [a]).calls == [R.RawCall("r", [1], Some(0.0))]
  {
    assert [Arriving(ROW1, 0.0, 0.0)][..0] == [];
  }

  lemma {:induction false} PartialArrivals()
    ensures var arr := [Arriving(ROW1, 0.0, 0.0), Arriving(ROWS12, 0.0, 0.0)];
            && D.Timely(64, R.Keys(arr))
            && R.Run(64, arr).calls == [R.RawCall("r", [1], Some(0.0))]
  {
    var key := S.Key("r", "b", 1);
    var arr := [Arriving(ROW1, 0.0, 0.0), Arriving(ROWS12, 0.0, 0.0)];
    FirstArrival();
    assert arr[..1] == [arr[0]] && R.Keys(arr) == [key, key] && R.Run(64, arr).calls == R.Run(64, [arr[0]]).calls;
    OneKeyIsTimely(key);
  }

  lemma {:induction false} OneKeyIsTimely(key: S.Key)
    ensures D.Timely(64, [key, key])
  {
    assert [key, key][..1] == [key] && [key][..0] == [];
    assert Firsts([key]) == [key];
    D.FewKeysAreTimely(64, [key, key]);
  }

  lemma {:induction false} RunVisits<T(!new)>(u: seq<System<T>>, es: seq<Event<T>>)
    requires |u| == |es| + 1
    requires forall i :: 0 <= i < |es| ==> Step(u[i], es[i]) == u[i + 1]
    ensures Run(u[0], es) == u[|es|]
    decreases |es|
  {
    if es != [] {
      RunVisits(u[1..], es[1..]);
    }
  }
}
