/** From the vehicle's buffer to the archive writer: the uplink feeds `on_raw`, and each call of `on_raw` is one
    `record_topics` of the writer. */
module EndToEnd {
  import opened Clock
  import opened Deques
  import opened Options
  import opened Writer
  import C = Catalogue
  import D = Dedup
  import L = StreamLedger
  import R = Router
  import S = Sender
  import U = Uplink

  // ---------------------------------------------------------------- what the writer accepts

  function BatchRows(lim: Limits, robot: string, skew: Option<int>, now: int, batch: seq<Item>): seq<TopicRow> {
    if batch == [] then []
    else
      var last := batch[|batch| - 1];
      BatchRows(lim, robot, skew, now, batch[..|batch| - 1])
      + (if Usable(last) then [RowOf(lim, robot, skew, now, last)] else [])
  }

  function RowsOf(lim: Limits, events: seq<Event>): seq<TopicRow> {
    if events == [] then []
    else
      RowsOf(lim, events[..|events| - 1])
      + match events[|events| - 1]
        case RecordTopics(robot, skew, now, batch) => BatchRows(lim, robot, skew, now, batch)
        case _ => []
  }

  lemma {:induction false} BatchAccepted(w: State, lim: Limits, robot: string, skew: Option<int>, now: int,
                                         batch: seq<Item>)
    ensures ItemsRecorded(w, lim, robot, skew, now, batch).topics.accepted
            == w.topics.accepted + BatchRows(lim, robot, skew, now, batch)
  {
    hide RowOf, SampleOf, Clamped, C.Note, Append;
    if batch != [] {
      BatchAccepted(w, lim, robot, skew, now, batch[..|batch| - 1]);
    }
  }

  lemma {:induction false} SkewAccepts(w: State, lim: Limits, robot: string, skew: Option<int>)
    ensures SkewNoted(w, lim, robot, skew).topics == w.topics
  {
    hide L.Step;
  }

  lemma {:induction false} AdvancedAccepts(w: State, s: Stage)
    ensures Advanced(w, s).topics.accepted == w.topics.accepted
  {
    hide NextStage;
  }

  lemma {:induction false} FlushAccepts(w: State, reconnects: bool)
    ensures Begun(w, reconnects).topics.accepted == w.topics.accepted
    ensures Done(w).topics.accepted == w.topics.accepted
    ensures Failed(w).topics.accepted == w.topics.accepted
  {
    AdvancedAccepts(Taken(w), Telemetry);
    AdvancedAccepts(w.(telemetry := L.Step(w.telemetry, L.Store)), Topics);
    AdvancedAccepts(w.(topics := L.Step(w.topics, L.Store)), Catalog);
    AdvancedAccepts(w.(table := C.Upsert(w.table, w.flight)), Events);
    AdvancedAccepts(w.(events := L.Step(w.events, L.Store)), Touch);
    hide Advanced, C.Upsert;
  }

  lemma {:induction false} StepAccepts(lim: Limits, w: State, e: Event)
    ensures Step(lim, w, e).topics.accepted == w.topics.accepted + RowsOf(lim, [e])
  {
    assert [e][..0] == [] && RowsOf(lim, []) == [];
    hide Begun, Done, Failed, ItemsRecorded, SkewNoted, BatchRows;
    match e
    case RecordTopics(robot, skew, now, batch) =>
      SkewAccepts(w, lim, robot, skew);
      BatchAccepted(SkewNoted(w, lim, robot, skew), lim, robot, skew, now, batch);
    case FlushBegin(reconnects) => FlushAccepts(w, reconnects);
    case StoreDone => FlushAccepts(w, false);
    case StoreFailed => FlushAccepts(w, false);
    case _ =>
  }

  /** Over every run, flushes and failures included, the writer accepts the well-formed elements of the batches it is
      given, in order, and no others. */
  lemma {:induction false} AcceptsWellFormed(lim: Limits, w: State, events: seq<Event>)
    ensures Run(lim, w, events).topics.accepted == w.topics.accepted + RowsOf(lim, events)
    decreases |events|
  {
    hide Step, Run, BatchRows, RowsOf;
    if events == [] {
      RunNone(lim, w);
    } else {
      var init, e := events[..|events| - 1], events[|events| - 1];
      AcceptsWellFormed(lim, w, init);
      assert events == init + [e];
      RunSplit(lim, w, init, [e]);
      RunOne(lim, Run(lim, w, init), e);
      StepAccepts(lim, Run(lim, w, init), e);
      RowsSnoc(lim, init, e);
    }
  }

  lemma {:induction false} RunNone(lim: Limits, w: State)
    ensures Run(lim, w, []) == w && RowsOf(lim, []) == []
  {
  }

  lemma {:induction false} RowsSnoc(lim: Limits, init: seq<Event>, e: Event)
    ensures RowsOf(lim, init + [e]) == RowsOf(lim, init) + RowsOf(lim, [e])
  {
    hide BatchRows;
    assert (init + [e])[..|init|] == init && [e][..0] == [] && RowsOf(lim, []) == [];
  }

  lemma {:induction false} RunOne(lim: Limits, w: State, e: Event)
    ensures Run(lim, w, [e]) == Step(lim, w, e)
  {
    hide Step;
    assert [e][1..] == [];
  }

  // ---------------------------------------------------------------- from the router to the writer

  /** The batches of the events are those of the calls, in order; clocks, skews and whatever else happens are free. */
  predicate Feeds(events: seq<Event>, calls: seq<R.RawCall<Item>>) {
    if events == [] then calls == []
    else if !events[|events| - 1].RecordTopics? then Feeds(events[..|events| - 1], calls)
    else
      && calls != []
      && events[|events| - 1].robot == calls[|calls| - 1].robot && events[|events| - 1].batch == calls[|calls| - 1].rows
      && Feeds(events[..|events| - 1], calls[..|calls| - 1])
  }

  /** The row stands for this element of a batch of the robot; a topic is cut to 500 characters. */
  predicate Carries(row: TopicRow, robot: string, item: Item) {
    && Usable(item) && row.robot == robot && row.value == item.value && row.flag == item.flag
    && row.topic <= item.topic && |row.topic| == Min(|item.topic|, 500)
  }

  /** Stored, in the hands of a flush, queued, or among the rows a full buffer lost. */
  predicate Located(t: L.Stream<TopicRow>, row: TopicRow) {
    row in t.stored || row in L.Pending(t) || row in t.queue || row in t.dropped || row in t.cut
  }

  lemma {:induction false} BatchRowIs(lim: Limits, robot: string, skew: Option<int>, now: int, batch: seq<Item>, j: nat)
      returns (row: TopicRow)
    requires j < |batch| && Usable(batch[j])
    ensures row in BatchRows(lim, robot, skew, now, batch) && Carries(row, robot, batch[j])
    ensures row == RowOf(lim, robot, skew, now, batch[j])
  {
    if j == |batch| - 1 {
      row := RowOf(lim, robot, skew, now, batch[j]);
    } else {
      row := BatchRowIs(lim, robot, skew, now, batch[..|batch| - 1], j);
    }
  }

  lemma {:induction false} CallIsRecorded(lim: Limits, events: seq<Event>, calls: seq<R.RawCall<Item>>, i: nat, j: nat)
      returns (row: TopicRow)
    requires Feeds(events, calls) && i < |calls| && j < |calls[i].rows| && Usable(calls[i].rows[j])
    ensures row in RowsOf(lim, events) && Carries(row, calls[i].robot, calls[i].rows[j])
  {
    hide Carries, Usable, BatchRows;
    var init, e := events[..|events| - 1], events[|events| - 1];
    if !e.RecordTopics? {
      row := CallIsRecorded(lim, init, calls, i, j);
    } else if i < |calls| - 1 {
      row := CallIsRecorded(lim, init, calls[..|calls| - 1], i, j);
    } else {
      row := BatchRowIs(lim, e.robot, e.skew, e.now, e.batch, j);
    }
  }

  /** A call belongs to the batch. */
  lemma {:induction false} ReachedCall(st: R.State<Item>, wire: set<S.Message<Item>>, m: S.Message<Item>)
                                       returns (i: nat)
    requires U.ReachedOnce(st, m) && U.CallsCarryBatches(st, wire)
    ensures i < |st.calls| && st.calls[i].robot == m.key.robot && st.calls[i].rows == m.rows
  {
    i :| 0 <= i < |st.calls| && st.window.accepted[i] == m.key && st.calls[i].rows == m.rows;
  }

  /** From end to end, over every run of the uplink and every run of the writer fed by it: once a batch the vehicle
      counts as sent has arrived, and arrived first under its key, each of its well-formed rows is in the writer's
      ledger: stored, in hand, queued, or counted as dropped or cut. */
  lemma {:induction false} SentRowsAreLocated(size: nat, sent: seq<U.Event<Item>>, robot: string, b: nat, j: nat,
                                              lim: Limits, telemetryMax: nat, eventsMax: nat, topicsMax: nat,
                                                ready: bool, events: seq<Event>)
      returns (row: TopicRow)
    requires var s := U.Run(U.Init<Item>(), sent);
             && robot in s.agents && b < |s.agents[robot].log| && j < |s.agents[robot].log[b]|
             && Usable(s.agents[robot].log[b][j])
             && D.Timely(size, R.Keys(s.arrived))
             && Feeds(events, R.Run(size, s.arrived).calls)
             && var m := S.Message(S.Key(robot, s.agents[robot].boot, b + 1), s.agents[robot].log[b]);
                m.key in R.Keys(s.arrived) && U.FirstRows(s.arrived, m.key) == Some(m.rows)
    ensures Carries(row, robot, U.Run(U.Init<Item>(), sent).agents[robot].log[b][j])
    ensures Located(Run(lim, Init(telemetryMax, eventsMax, topicsMax, ready), events).topics, row)
  {
    var s := U.Run(U.Init<Item>(), sent);
    var st := R.Run(size, s.arrived);
    var m := S.Message(S.Key(robot, s.agents[robot].boot, b + 1), s.agents[robot].log[b]);
    hide U.Run, R.Run, R.Keys, D.Timely, U.FirstRows, U.ReachedOnce, U.CallsCarryBatches, Carries, Usable, Feeds, Run,
         RowsOf;
    U.FirstArrivalWins(size, sent, m);
    U.UplinkIsExactlyOnce(size, sent);
    var i := ReachedCall(st, s.wire, m);
    row := CallIsRecorded(lim, events, st.calls, i, j);
    var w0 := Init(telemetryMax, eventsMax, topicsMax, ready);
    AcceptsWellFormed(lim, w0, events);
    NoRowVanishes(lim, telemetryMax, eventsMax, topicsMax, ready, events);
  }

  // ---------------------------------------------------------------- clocks

  function Seconds(ms: int): real {
    ms as real / 1000.0
  }

  /** A batch sent at `sent` by a vehicle whose clock is `ahead`, and received `transit` later: unless it is a repeat,
      the call of `on_raw` carries the difference of the two clocks less the time on the way. */
  lemma {:induction false} SkewIsMeasured(size: nat, arrived: seq<R.Arrival<Item>>, m: S.Message<Item>, sent: int,
                                          ahead: int, transit: int)
    requires m.key !in R.Run(size, arrived).window.recent
    ensures var calls := R.Run(size, arrived + [U.Arriving(m, Seconds(sent + ahead), Seconds(sent + transit))]).calls;
            && calls != []
            && calls[|calls| - 1] == R.RawCall(m.key.robot, m.rows, Some(Seconds(ahead - transit)))
    ensures var s := R.Run(size, arrived + [U.Arriving(m, Seconds(sent + ahead), Seconds(sent + transit))]);
            m.key.robot in s.lastSkew && s.lastSkew[m.key.robot] == Seconds(ahead - transit)
  {
    var a := U.Arriving(m, Seconds(sent + ahead), Seconds(sent + transit));
    var all := arrived + [a];
    assert all[..|all| - 1] == arrived;
    SecondsApart(sent + ahead, sent + transit);
    hide D.Arrive, Seconds;
    assert R.Run(size, all) == R.Applied(size, R.Run(size, arrived), a.robot, a.payload, a.now);
  }

  lemma {:induction false} SecondsApart(a: int, b: int)
    ensures Seconds(a) - Seconds(b) == Seconds(a - b)
  {
  }

  /** The measured skew, or the end of a 32-bit column it lies beyond. */
  predicate Held(skew: int, stored: Option<int>) {
    && stored.Some? && -2_147_483_648 <= stored.value <= 2_147_483_647
    && (stored.value < skew ==> stored.value == 2_147_483_647)
    && (skew < stored.value ==> stored.value == -2_147_483_648)
  }

  /** A sample taken at `taken`, which the vehicle stamped `taken + ahead`, is stored under the true time plus the time
      on the way, provided that lies in the window and the clocks are far enough apart to be corrected; if they are
      not, it keeps the vehicle's stamp, which is off by less than the threshold. */
  lemma {:induction false} StoredAtTrueTime(lim: Limits, robot: string, taken: int, ahead: int, transit: int, recv: int,
                                            item: Item)
    requires Usable(item) && item.ts == Some(taken + ahead) && taken + ahead != 0
    requires var kept := if Abs(ahead - transit) >= lim.correctFrom then taken + transit else taken + ahead;
             recv - lim.maxBackfill <= kept <= recv + lim.maxFuture
    ensures var row := RowOf(lim, robot, Some(ahead - transit), recv, item);
            && row.ts == (if Abs(ahead - transit) >= lim.correctFrom then taken + transit else taken + ahead)
            && (row.ts != taken + transit ==> Abs(row.ts - (taken + transit)) < lim.correctFrom)
            && row.recv == recv && Held(ahead - transit, row.skewMs)
  {
  }

  /** Outside the window it is stored under the time of receipt. */
  lemma {:induction false} StoredAtReceipt(lim: Limits, robot: string, skew: Option<int>, recv: int, item: Item)
    requires Usable(item) && item.ts.Some? && item.ts.value != 0
    requires var kept := item.ts.value - (if skew.Some? && Abs(skew.value) >= lim.correctFrom then skew.value else 0);
             kept < recv - lim.maxBackfill || recv + lim.maxFuture < kept
    ensures var row := RowOf(lim, robot, skew, recv, item);
            && row.ts == recv && row.recv == recv
            && (if skew.None? then row.skewMs.None? else Held(skew.value, row.skewMs))
  {
  }

  /** A sample without a time is dated by the server's own clock, and yet corrected by the vehicle's skew: it is stored
      under the time of receipt exactly when the skew is absent, zero, below the threshold or out of the window, and
      off by the whole skew otherwise. */
  lemma {:induction false} UntimedIsReceivedIff(lim: Limits, robot: string, skew: Option<int>, recv: int, item: Item)
    requires Usable(item) && (item.ts.None? || item.ts.value == 0)
    ensures var row := RowOf(lim, robot, skew, recv, item);
            && (row.ts == recv <==>
                 || skew.None? || skew.value == 0 || -lim.correctFrom < skew.value < lim.correctFrom
                 || skew.value > lim.maxBackfill || -skew.value > lim.maxFuture)
            && (row.ts != recv ==> row.ts == recv - skew.value)
  {
  }

  /** From a vehicle whose clock is an hour ahead, a sample without a time is stored as an hour old. */
  lemma {:induction false} UntimedIsBackdated(robot: string, item: Item, recv: int)
    requires Usable(item) && item.ts.None?
    ensures RowOf(Limits(2000, 604_800_000, 300_000), robot, Some(3_600_000), recv, item).ts == recv - 3_600_000
  {
  }

  /** From the vehicle's clock to the archive: the batch arrives, its call is recorded with the skew measured, and the
      writer accepts for each well-formed sample a row with these stamps. */
  lemma {:induction false} AcceptedAtTrueTime(size: nat, arrived: seq<R.Arrival<Item>>, m: S.Message<Item>, sent: int,
                                              ahead: int, transit: int, lim: Limits, w: State, recv: int, j: nat,
                                              taken: int)
      returns (row: TopicRow)
    requires m.key !in R.Run(size, arrived).window.recent
    requires j < |m.rows| && Usable(m.rows[j]) && m.rows[j].ts == Some(taken + ahead) && taken + ahead != 0
    requires Abs(ahead - transit) >= lim.correctFrom
    requires recv - lim.maxBackfill <= taken + transit <= recv + lim.maxFuture
    ensures var calls := R.Run(size, arrived + [U.Arriving(m, Seconds(sent + ahead), Seconds(sent + transit))]).calls;
            && calls != []
            && var call := calls[|calls| - 1];
               && call.skew == Some(Seconds(ahead - transit))
               && row in Run(lim, w, [RecordTopics(call.robot, Some(ahead - transit), recv, call.rows)]).topics.accepted
               && Carries(row, call.robot, m.rows[j]) && row.ts == taken + transit
               && row.recv == recv && Held(ahead - transit, row.skewMs)
  {
    SkewIsMeasured(size, arrived, m, sent, ahead, transit);
    var e := RecordTopics(m.key.robot, Some(ahead - transit), recv, m.rows);
    AcceptsWellFormed(lim, w, [e]);
    assert [e][..0] == [] && RowsOf(lim, []) == [];
    hide R.Run, Run, Seconds;
    StoredAtTrueTime(lim, m.key.robot, taken, ahead, transit, recv, m.rows[j]);
    row := BatchRowIs(lim, m.key.robot, Some(ahead - transit), recv, m.rows, j);
  }
}
