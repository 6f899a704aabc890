/** A flush that meets no failure: from which states it begins, and what it leaves behind. */
module WriterFlush {
  import opened Clock
  import opened Options
  import opened Writer
  import C = Catalogue
  import L = StreamLedger

  /** `later` is `before` with everything buffered appended to what is stored, and nothing else. */
  predicate AllStored<T(==)>(before: L.Stream<T>, later: L.Stream<T>) {
    && later.stored == before.stored + before.queue && later.queue == [] && later.flight == [] && !later.committed
    && later.accepted == before.accepted && later.dropped == before.dropped && later.cut == before.cut
    && later.max == before.max
  }

  /** The stream during a flush that began with `before`: its batch is in hand, and stored or not. */
  predicate InFlight<T(==)>(before: L.Stream<T>, now: L.Stream<T>, stored: bool) {
    && now.flight == before.queue && now.queue == []
    && now.stored == before.stored + (if stored then before.queue else [])
    && (now.committed <==> stored && before.queue != [])
    && now.accepted == before.accepted && now.dropped == before.dropped && now.cut == before.cut
    && now.max == before.max
  }

  /** Half-way: every stage of a rank below `r` is behind. */
  predicate Midway(before: State, now: State, r: nat) {
    && InFlight(before.telemetry, now.telemetry, r > 1)
    && InFlight(before.topics, now.topics, r > 2)
    && InFlight(before.events, now.events, r > 4)
    && now.flight == before.pending && now.pending == map[]
    && now.table == (if r > 3 then C.Upsert(before.table, before.pending) else before.table)
    && now.seenIds == (if r > 5 then {} else before.seenIds)
    && now.samples == before.samples && now.ready
  }

  /** Everything is where a flush is to put it. */
  predicate Finished(before: State, now: State) {
    && now.stage == Idle && now.ready
    && AllStored(before.telemetry, now.telemetry)
    && AllStored(before.topics, now.topics)
    && AllStored(before.events, now.events)
    && now.table == C.Upsert(before.table, before.pending) && now.pending == map[] && now.flight == map[]
    && now.samples == before.samples && now.seenIds == {}
  }

  /** Finished, or stopped at a stage not before `r`. */
  predicate Reached(before: State, now: State, r: nat) {
    if now.stage == Idle then Finished(before, now) else Midway(before, now, Rank(now.stage)) && Rank(now.stage) >= r
  }

  lemma {:induction false} FinishStream<T>(before: L.Stream<T>, now: L.Stream<T>)
    requires InFlight(before, now, true)
    ensures AllStored(before, L.Step(now, L.Finish))
  {
  }

  lemma {:induction false} StoreStream<T>(before: L.Stream<T>, now: L.Stream<T>)
    requires InFlight(before, now, false) && before.queue != []
    ensures InFlight(before, L.Step(now, L.Store), true)
  {
  }

  lemma {:induction false} SkipStream<T>(before: L.Stream<T>, now: L.Stream<T>)
    requires before.queue == [] && InFlight(before, now, false)
    ensures InFlight(before, now, true)
  {
    assert before.stored + [] == before.stored;
  }

  lemma {:induction false} TakeStream<T>(before: L.Stream<T>)
    requires before.flight == [] && !before.committed
    ensures InFlight(before, L.Step(before, L.Take(|before.queue|)), false)
  {
    assert before.stored + [] == before.stored;
  }

  /** With nothing to store at a stage, it is behind already. */
  lemma {:induction false} Skips(before: State, now: State, r: nat)
    requires Midway(before, now, r)
    requires r == 1 ==> before.telemetry.queue == []
    requires r == 2 ==> before.topics.queue == []
    requires r == 3 ==> before.pending == map[]
    requires r == 4 ==> before.events.queue == []
    requires r == 5 ==> before.seenIds == {}
    ensures Midway(before, now, r + 1)
  {
    hide InFlight;
    C.UpsertNothing(before.table);
    if r == 1 {
      SkipStream(before.telemetry, now.telemetry);
    } else if r == 2 {
      SkipStream(before.topics, now.topics);
    } else if r == 4 {
      SkipStream(before.events, now.events);
    }
  }

  lemma {:induction false} SettledFinished(before: State, now: State)
    requires Midway(before, now, 6)
    ensures Settled(now).stage == Idle && Finished(before, Settled(now))
  {
    FinishStream(before.telemetry, now.telemetry);
    FinishStream(before.topics, now.topics);
    FinishStream(before.events, now.events);
    hide InFlight, AllStored, L.Step;
  }

  lemma {:induction false} NextStageUnrolled(w: State, s: Stage)
    requires s != Idle
    ensures s == Telemetry && w.telemetry.flight == [] ==> NextStage(w, s) == NextStage(w, Topics)
    ensures s == Topics && w.topics.flight == [] ==> NextStage(w, s) == NextStage(w, Catalog)
    ensures s == Catalog && w.flight == map[] ==> NextStage(w, s) == NextStage(w, Events)
    ensures s == Events && w.events.flight == [] ==> NextStage(w, s) == NextStage(w, Touch)
    ensures s == Touch && w.seenIds == {} ==> NextStage(w, s) == Idle
  {
  }

  lemma {:induction false} AdvancedReaches(before: State, now: State, s: Stage)
    requires s != Idle && Midway(before, now, Rank(s))
    ensures Reached(before, Advanced(now, s), Rank(s))
    decreases 5 - Rank(s)
  {
    var stop := match s
      case Telemetry => now.telemetry.flight != []
      case Topics => now.topics.flight != []
      case Catalog => now.flight != map[]
      case Events => now.events.flight != []
      case Touch => now.seenIds != {};
    NextStageUnrolled(now, s);
    if stop {
      assert NextStage(now, s) == s;
      hide Midway;
      SameStage(before, now, s);
    } else {
      Skips(before, now, Rank(s));
      hide NextStage, Settled, Finished;
      match s
      case Telemetry => AdvancedReaches(before, now, Topics);
      case Topics => AdvancedReaches(before, now, Catalog);
      case Catalog => AdvancedReaches(before, now, Events);
      case Events => AdvancedReaches(before, now, Touch);
      case Touch => SettledFinished(before, now);
    }
  }

  lemma {:induction false} SameStage(before: State, now: State, s: Stage)
    requires Midway(before, now, Rank(s))
    ensures Midway(before, now.(stage := s), Rank(s))
  {
  }

  /** One more store call that commits. */
  lemma {:induction false} DoneReaches(before: State, now: State)
    requires now.stage != Idle && Midway(before, now, Rank(now.stage)) && StagesAgree(now)
    ensures Reached(before, Done(now), Rank(now.stage) + 1)
  {
    hide InFlight, Advanced, L.Step, Settled, Finished;
    match now.stage
    case Telemetry =>
      StoreNonempty(before, now);
      AdvancedReaches(before, now.(telemetry := L.Step(now.telemetry, L.Store)), Topics);
    case Topics =>
      StoreNonempty(before, now);
      AdvancedReaches(before, now.(topics := L.Step(now.topics, L.Store)), Catalog);
    case Catalog => AdvancedReaches(before, now.(table := C.Upsert(now.table, now.flight)), Events);
    case Events =>
      StoreNonempty(before, now);
      AdvancedReaches(before, now.(events := L.Step(now.events, L.Store)), Touch);
    case Touch => SettledFinished(before, now.(seenIds := {}));
  }

  lemma {:induction false} StoreNonempty(before: State, now: State)
    requires now.stage != Idle && Midway(before, now, Rank(now.stage)) && StagesAgree(now)
    ensures now.stage == Telemetry ==> InFlight(before.telemetry, L.Step(now.telemetry, L.Store), true)
    ensures now.stage == Topics ==> InFlight(before.topics, L.Step(now.topics, L.Store), true)
    ensures now.stage == Events ==> InFlight(before.events, L.Step(now.events, L.Store), true)
  {
    hide L.Step;
    if now.stage == Telemetry {
      StoreStream(before.telemetry, now.telemetry);
    } else if now.stage == Topics {
      StoreStream(before.topics, now.topics);
    } else if now.stage == Events {
      StoreStream(before.events, now.events);
    }
  }

  lemma {:induction false} BegunReaches(w: State, reconnects: bool)
    requires w.stage == Idle && StagesAgree(w) && (w.ready || reconnects)
    requires w.telemetry.queue != [] || w.topics.queue != [] || w.events.queue != []
    ensures Reached(w, Begun(w, reconnects), 1)
  {
    TakeStream(w.telemetry);
    TakeStream(w.topics);
    TakeStream(w.events);
    hide InFlight, L.Step, Advanced, Finished;
    AdvancedReaches(w, Taken(w), Telemetry);
  }

  /** `n` store calls that commit, one after the other. */
  function Commits(n: nat): seq<Event> {
    if n == 0 then [] else [StoreDone] + Commits(n - 1)
  }

  lemma {:induction false} CommitsFinish(lim: Limits, before: State, now: State, n: nat)
    requires n <= 5 && Inv(now) && Reached(before, now, 6 - n)
    ensures Finished(before, Run(lim, now, Commits(n)))
    decreases n
  {
    hide Midway, Finished, Inv;
    if n > 0 {
      assert Commits(n)[1..] == Commits(n - 1);
      StepKeepsInv(lim, now, StoreDone);
      assert now.stage == Idle ==> Step(lim, now, StoreDone) == now;
      if now.stage != Idle {
        InvStages(now);
        DoneReaches(before, now);
      }
      hide Done;
      CommitsFinish(lim, before, Step(lim, now, StoreDone), n - 1);
    }
  }

  lemma {:induction false} InvStages(w: State)
    requires Inv(w)
    ensures StagesAgree(w)
  {
  }

  /** From every idle state the writer can come to, with a database or one that comes back, and with a row in any of
      the three buffers: a flush whose store calls commit is over after at most five of them.  Every buffered row has
      been appended in order to what its stream had stored, the buffers are empty, the catalogue table has taken up
      what was pending, and the robots heard of are forgotten. */
  lemma {:induction false} FlushStoresEverything(lim: Limits, telemetryMax: nat, eventsMax: nat, topicsMax: nat,
                                                 ready: bool, events: seq<Event>, reconnects: bool)
    requires var w := Run(lim, Init(telemetryMax, eventsMax, topicsMax, ready), events);
             && w.stage == Idle && (w.ready || reconnects)
             && (w.telemetry.queue != [] || w.topics.queue != [] || w.events.queue != [])
    ensures var w := Run(lim, Init(telemetryMax, eventsMax, topicsMax, ready), events);
            Finished(w, Run(lim, w, [FlushBegin(reconnects)] + Commits(5)))
  {
    var w0 := Init(telemetryMax, eventsMax, topicsMax, ready);
    var w := Run(lim, w0, events);
    InitInv(telemetryMax, eventsMax, topicsMax, ready);
    RunKeepsInv(lim, w0, events);
    StepKeepsInv(lim, w, FlushBegin(reconnects));
    InvStages(w);
    BegunReaches(w, reconnects);
    var es := [FlushBegin(reconnects)] + Commits(5);
    assert es[0] == FlushBegin(reconnects) && es[1..] == Commits(5);
    hide Inv, Begun, Midway, Finished, Commits;
    CommitsFinish(lim, w, Step(lim, w, FlushBegin(reconnects)), 5);
  }

  /** In every other state the attempt changes nothing: a flush is under way, nothing is buffered, or the database is
      away. */
  lemma {:induction false} NothingToFlush(lim: Limits, w: State, reconnects: bool)
    requires || w.stage != Idle
             || (w.telemetry.queue == [] && w.topics.queue == [] && w.events.queue == [])
             || !(w.ready || reconnects)
    ensures Step(lim, w, FlushBegin(reconnects)) == w
  {
  }
}
