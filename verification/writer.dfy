/** `TelemetryWriter`: bounded buffers in front of the archive, drained by a flush that stores them stage by
    stage and may fail at any stage.

    `_flush_once` gives up control while each store call runs, so records keep arriving in between.  The
    model makes each stretch between two such points one step: `FlushBegin` empties the buffers, `StoreDone`
    resumes after a store call that committed, `StoreFailed` after one that did not. */
module Writer {
  import opened Deques
  import opened Options
  import opened Clock
  import C = Catalogue
  import L = StreamLedger

  datatype TelemetryRow = TelemetryRow(robot: string, ts: int, body: string)

  datatype TopicRow = TopicRow(robot: string, ts: int, recv: int, skewMs: Option<int>, topic: string, value: string,
                               flag: int)

  datatype EventRow = EventRow(robot: string, kind: string, body: string)

  /** An element of a relayed batch: too short or without a usable topic, or a sample.  A time that is
      missing or unreadable is `None`. */
  datatype Item = Malformed | Item(topic: string, ts: Option<int>, value: string, flag: int)

  datatype Stage = Idle | Telemetry | Topics | Catalog | Events | Touch

  function Rank(s: Stage): nat {
    match s
    case Idle => 0
    case Telemetry => 1
    case Topics => 2
    case Catalog => 3
    case Events => 4
    case Touch => 5
  }

  /** The writer and the tables behind it.  The three ledgers hold the buffers, the batches in hand and what
      became of each row; `pending`, `flight` and `table` are the catalogue in memory, in hand and stored;
      `samples` remembers every topic sample accepted. */
  datatype State = State(
    telemetry: L.Stream<TelemetryRow>,
    topics: L.Stream<TopicRow>,
    events: L.Stream<EventRow>,
    pending: C.Table,
    flight: C.Table,
    table: C.Table,
    samples: seq<C.Sample>,
    stage: Stage,
    ready: bool,
    seenIds: set<string>,
    skewWarned: set<string>,
    skews: map<string, int>,
    malformed: nat,
    clamped: nat,
    failures: nat)

  function Init(telemetryMax: nat, eventsMax: nat, topicsMax: nat, ready: bool): State {
    State(L.Empty(telemetryMax), L.Empty(topicsMax), L.Empty(eventsMax), map[], map[], map[], [],
          Idle, ready, {}, {}, map[], 0, 0, 0)
  }

  // ---------------------------------------------------------------- recording

  function Recorded(w: State, row: TelemetryRow): State {
    w.(telemetry := L.Step(w.telemetry, L.Accept(row)), seenIds := w.seenIds + {row.robot})
  }

  function EventNoted(w: State, row: EventRow): State {
    w.(events := L.Step(w.events, L.Accept(row)))
  }

  function Cut(s: string, n: nat): string {
    if |s| <= n then s else s[..n]
  }

  function RawTs(ts: Option<int>, now: int): int {
    if ts.Some? && ts.value != 0 then ts.value else now
  }

  predicate Usable(item: Item) {
    item.Item? && item.topic != ""
  }

  /** The row a usable element becomes. */
  function RowOf(lim: Limits, robot: string, skew: Option<int>, now: int, item: Item): TopicRow
    requires Usable(item)
  {
    TopicRow(robot, Correct(lim, RawTs(item.ts, now), Correction(lim, skew), now), now, SkewMs(skew),
             Cut(item.topic, 500), item.value, item.flag)
  }

  /** What the catalogue notes of a row. */
  function SampleOf(row: TopicRow): C.Sample {
    C.Sample((row.robot, row.topic), row.ts, Cut(row.value, 200), row.flag == 0)
  }

  /** One element of a relayed batch. */
  function ItemRecorded(w: State, lim: Limits, robot: string, skew: Option<int>, now: int, item: Item): State {
    if !Usable(item) then w.(malformed := w.malformed + 1) else
    var row := RowOf(lim, robot, skew, now, item);
    w.(topics := L.Step(w.topics, L.Accept(row)),
       pending := C.Note(w.pending, SampleOf(row)),
       samples := w.samples + [SampleOf(row)],
       clamped := if Clamped(lim, RawTs(item.ts, now), Correction(lim, skew), now) then w.clamped + 1 else w.clamped)
  }

  function ItemsRecorded(w: State, lim: Limits, robot: string, skew: Option<int>, now: int, batch: seq<Item>): State {
    if batch == [] then w
    else
      ItemRecorded(ItemsRecorded(w, lim, robot, skew, now, batch[..|batch| - 1]), lim, robot, skew, now,
                   batch[|batch| - 1])
  }

  /** The skew of a robot whose clock is far off is remembered; the first such batch is also an event. */
  function SkewKept(w: State, robot: string, skew: int): State {
    var kept := w.(skews := w.skews[robot := skew]);
    if robot in w.skewWarned then kept
    else EventNoted(kept.(skewWarned := w.skewWarned + {robot}), EventRow(robot, "clock", ""))
  }

  function SkewNoted(w: State, lim: Limits, robot: string, skew: Option<int>): State {
    if skew.Some? && Abs(skew.value) >= lim.correctFrom then SkewKept(w, robot, skew.value) else w
  }

  function TopicsRecorded(w: State, lim: Limits, robot: string, skew: Option<int>, now: int, batch: seq<Item>): State {
    ItemsRecorded(SkewNoted(w, lim, robot, skew), lim, robot, skew, now, batch)
  }

  // ---------------------------------------------------------------- flushing

  /** The next stage, from `s` on, that has something to store. */
  function NextStage(w: State, s: Stage): Stage
    decreases 5 - Rank(s)
  {
    match s
    case Idle => Idle
    case Telemetry => if w.telemetry.flight != [] then Telemetry else NextStage(w, Topics)
    case Topics => if w.topics.flight != [] then Topics else NextStage(w, Catalog)
    case Catalog => if w.flight != map[] then Catalog else NextStage(w, Events)
    case Events => if w.events.flight != [] then Events else NextStage(w, Touch)
    case Touch => if w.seenIds != {} then Touch else Idle
  }

  /** Forget the batches in hand once every stage is done. */
  function Settled(w: State): State {
    w.(telemetry := L.Step(w.telemetry, L.Finish),
       topics := L.Step(w.topics, L.Finish),
       events := L.Step(w.events, L.Finish),
       flight := map[],
       stage := Idle)
  }

  function Advanced(w: State, s: Stage): State {
    var next := NextStage(w, s);
    if next == Idle then Settled(w) else w.(stage := next)
  }

  /** Everything buffered moves into the hands of the flush. */
  function Taken(w: State): State {
    w.(ready := true,
       telemetry := L.Step(w.telemetry, L.Take(|w.telemetry.queue|)),
       events := L.Step(w.events, L.Take(|w.events.queue|)),
       topics := L.Step(w.topics, L.Take(|w.topics.queue|)),
       flight := w.pending,
       pending := map[])
  }

  /** Only one flush runs at a time, only with something to store, and only with a database. */
  predicate CanFlush(w: State, reconnects: bool) {
    && w.stage == Idle
    && !(w.telemetry.queue == [] && w.events.queue == [] && w.topics.queue == [])
    && (w.ready || reconnects)
  }

  function Begun(w: State, reconnects: bool): State {
    if CanFlush(w, reconnects) then Advanced(Taken(w), Telemetry) else w
  }

  /** The store call of the current stage committed. */
  function Done(w: State): State {
    match w.stage
    case Idle => w
    case Telemetry => Advanced(w.(telemetry := L.Step(w.telemetry, L.Store)), Topics)
    case Topics => Advanced(w.(topics := L.Step(w.topics, L.Store)), Catalog)
    case Catalog => Advanced(w.(table := C.Upsert(w.table, w.flight)), Events)
    case Events => Advanced(w.(events := L.Step(w.events, L.Store)), Touch)
    case Touch => Settled(w.(seenIds := {}))
  }

  /** The store call of the current stage failed: every batch in hand is put back, stored or not, and the
      catalogue entries in hand overwrite those accumulated meanwhile. */
  function Failed(w: State): State {
    if w.stage == Idle then w else
    w.(telemetry := L.Step(w.telemetry, L.PutBack),
       topics := L.Step(w.topics, L.PutBack),
       events := L.Step(w.events, L.PutBack),
       pending := w.pending + w.flight,
       flight := map[],
       stage := Idle,
       ready := false,
       failures := w.failures + 1)
  }

  datatype Event =
    | Record(row: TelemetryRow)
    | RecordTopics(robot: string, skew: Option<int>, now: int, batch: seq<Item>)
    | NoteEvent(event: EventRow)
    | FlushBegin(reconnects: bool)
    | StoreDone
    | StoreFailed

  function Step(lim: Limits, w: State, e: Event): State {
    match e
    case Record(row) => Recorded(w, row)
    case RecordTopics(robot, skew, now, batch) => TopicsRecorded(w, lim, robot, skew, now, batch)
    case NoteEvent(row) => EventNoted(w, row)
    case FlushBegin(reconnects) => Begun(w, reconnects)
    case StoreDone => Done(w)
    case StoreFailed => Failed(w)
  }

  function Run(lim: Limits, w: State, events: seq<Event>): State
    decreases |events|
  {
    if events == [] then w else Run(lim, Step(lim, w, events[0]), events[1..])
  }

  // ---------------------------------------------------------------- the ledgers

  ghost predicate Sound<T(!new)>(s: L.Stream<T>) {
    L.Balanced(s) && L.Ordered(s) && L.Archived(s)
  }

  lemma {:induction false} SoundStep<T(!new)>(s: L.Stream<T>, op: L.Op<T>)
    requires Sound(s)
    ensures Sound(L.Step(s, op))
  {
    L.StepKeepsBalance(s, op);
    L.StepKeepsBound(s, op);
    L.StepKeepsInOrder(s, op);
    L.StepKeepsComplete(s, op);
    L.StepKeepsArchived(s, op);
  }

  /** A batch in hand is committed exactly when the flush is past its stage. */
  predicate Staged<T(==)>(s: L.Stream<T>, stage: Stage, own: nat) {
    && (stage == Idle ==> s.flight == [])
    && (s.committed <==> s.flight != [] && Rank(stage) > own)
  }

  predicate StagesAgree(w: State) {
    && Staged(w.telemetry, w.stage, 1) && Staged(w.topics, w.stage, 2) && Staged(w.events, w.stage, 4)
    && (w.stage == Idle ==> w.flight == map[])
    && (w.stage == Telemetry ==> w.telemetry.flight != [])
    && (w.stage == Topics ==> w.topics.flight != [])
    && (w.stage == Catalog ==> w.flight != map[])
    && (w.stage == Events ==> w.events.flight != [])
  }

  ghost predicate Inv(w: State) {
    AllSound(w) && StagesAgree(w)
  }

  lemma {:induction false} ItemKeepsInv(w: State, lim: Limits, robot: string, skew: Option<int>, now: int, item: Item)
    requires Inv(w)
    ensures Inv(ItemRecorded(w, lim, robot, skew, now, item))
  {
    hide Sound, RowOf, SampleOf, Clamped, C.Note;
    if Usable(item) {
      SoundStep(w.topics, L.Accept(RowOf(lim, robot, skew, now, item)));
    }
  }

  lemma {:induction false} ItemsKeepInv(w: State, lim: Limits, robot: string, skew: Option<int>, now: int,
                                        batch: seq<Item>)
    requires Inv(w)
    ensures Inv(ItemsRecorded(w, lim, robot, skew, now, batch))
  {
    if batch != [] {
      var init := batch[..|batch| - 1];
      ItemsKeepInv(w, lim, robot, skew, now, init);
      ItemKeepsInv(ItemsRecorded(w, lim, robot, skew, now, init), lim, robot, skew, now, batch[|batch| - 1]);
    }
  }

  /** The next stage is the first from `s` on with something to store. */
  lemma {:induction false} NextStageIs(w: State, s: Stage)
    requires s != Idle
    ensures NextStage(w, s) ==
            if Rank(s) <= Rank(Telemetry) && w.telemetry.flight != [] then Telemetry
            else if Rank(s) <= Rank(Topics) && w.topics.flight != [] then Topics
            else if Rank(s) <= Rank(Catalog) && w.flight != map[] then Catalog
            else if Rank(s) <= Rank(Events) && w.events.flight != [] then Events
            else if w.seenIds != {} then Touch
            else Idle
    decreases 5 - Rank(s)
  {
    match s
    case Telemetry => NextStageIs(w, Topics);
    case Topics => NextStageIs(w, Catalog);
    case Catalog => NextStageIs(w, Events);
    case Events => NextStageIs(w, Touch);
    case Touch =>
  }

  lemma {:induction false} SettledSound(w: State)
    requires Sound(w.telemetry) && Sound(w.topics) && Sound(w.events)
    ensures var w' := Settled(w); Sound(w'.telemetry) && Sound(w'.topics) && Sound(w'.events)
  {
    SoundStep(w.telemetry, L.Finish);
    SoundStep(w.topics, L.Finish);
    SoundStep(w.events, L.Finish);
  }

  ghost predicate AllSound(w: State) {
    Sound(w.telemetry) && Sound(w.topics) && Sound(w.events)
  }

  lemma {:induction false} AdvancedSound(w: State, s: Stage)
    requires AllSound(w)
    ensures AllSound(Advanced(w, s))
  {
    SettledSound(w);
    hide Sound, L.Step, NextStage;
  }

  lemma {:induction false} DoneSound(w: State)
    requires AllSound(w)
    ensures AllSound(Done(w))
  {
    hide Sound, L.Step, Advanced, Settled, NextStage;
    match w.stage
    case Idle =>
    case Telemetry => SoundStep(w.telemetry, L.Store);
      AdvancedSound(w.(telemetry := L.Step(w.telemetry, L.Store)), Topics);
    case Topics => SoundStep(w.topics, L.Store); AdvancedSound(w.(topics := L.Step(w.topics, L.Store)), Catalog);
    case Catalog => AdvancedSound(w.(table := C.Upsert(w.table, w.flight)), Events);
    case Events => SoundStep(w.events, L.Store); AdvancedSound(w.(events := L.Step(w.events, L.Store)), Touch);
    case Touch => SettledSound(w.(seenIds := {}));
  }

  /** All stages before `next` are committed or empty. */
  predicate StoredBefore(w: State, next: Stage) {
    && next != Idle
    && w.telemetry.committed == (w.telemetry.flight != [] && Rank(next) > 1)
    && w.topics.committed == (w.topics.flight != [] && Rank(next) > 2)
    && w.events.committed == (w.events.flight != [] && Rank(next) > 4)
  }

  lemma {:induction false} AdvancedAgrees(w: State, s: Stage)
    requires StoredBefore(w, s)
    ensures StagesAgree(Advanced(w, s))
  {
    NextStageIs(w, s);
    hide NextStage, Settled, StagesAgree;
    if NextStage(w, s) == Idle {
      SettledAgrees(w);
    } else {
      MovedAgrees(w, NextStage(w, s));
    }
  }

  lemma {:induction false} SettledAgrees(w: State)
    requires w.telemetry.committed <==> w.telemetry.flight != []
    requires w.topics.committed <==> w.topics.flight != []
    requires w.events.committed <==> w.events.flight != []
    ensures StagesAgree(Settled(w))
  {
    FinishedStream(w.telemetry);
    FinishedStream(w.topics);
    FinishedStream(w.events);
    hide L.Step;
  }

  lemma {:induction false} MovedAgrees(w: State, n: Stage)
    requires StoredBefore(w, n)
    requires n == Telemetry ==> w.telemetry.flight != []
    requires n == Topics ==> w.topics.flight != []
    requires n == Catalog ==> w.flight != map[]
    requires n == Events ==> w.events.flight != []
    ensures StagesAgree(w.(stage := n))
  {
  }

  lemma {:induction false} FinishedStream<T>(s: L.Stream<T>)
    requires s.committed <==> s.flight != []
    ensures var s' := L.Step(s, L.Finish); s'.flight == [] && !s'.committed
  {
  }

  lemma {:induction false} StoredStream<T>(s: L.Stream<T>)
    requires !s.committed
    ensures var s' := L.Step(s, L.Store); s'.flight == s.flight && s'.committed
  {
  }

  lemma {:induction false} DoneAgrees(w: State)
    requires StagesAgree(w)
    ensures StagesAgree(Done(w))
  {
    hide L.Step, Advanced;
    match w.stage
    case Idle =>
    case Telemetry => StoredStream(w.telemetry); AdvancedAgrees(w.(telemetry := L.Step(w.telemetry, L.Store)), Topics);
    case Topics => StoredStream(w.topics); AdvancedAgrees(w.(topics := L.Step(w.topics, L.Store)), Catalog);
    case Catalog => AdvancedAgrees(w.(table := C.Upsert(w.table, w.flight)), Events);
    case Events => StoredStream(w.events); AdvancedAgrees(w.(events := L.Step(w.events, L.Store)), Touch);
    case Touch => FinishedStream(w.telemetry); FinishedStream(w.topics); FinishedStream(w.events);
  }

  lemma {:induction false} BegunSound(w: State, reconnects: bool)
    requires AllSound(w)
    ensures AllSound(Begun(w, reconnects))
  {
    SoundStep(w.telemetry, L.Take(|w.telemetry.queue|));
    SoundStep(w.topics, L.Take(|w.topics.queue|));
    SoundStep(w.events, L.Take(|w.events.queue|));
    hide Sound, L.Step, NextStage, Advanced;
    AdvancedSound(Taken(w), Telemetry);
  }

  lemma {:induction false} BegunAgrees(w: State, reconnects: bool)
    requires StagesAgree(w)
    ensures StagesAgree(Begun(w, reconnects))
  {
    if CanFlush(w, reconnects) {
      AdvancedAgrees(Taken(w), Telemetry);
    }
  }

  lemma {:induction false} BegunKeepsInv(w: State, reconnects: bool)
    requires Inv(w)
    ensures Inv(Begun(w, reconnects))
  {
    BegunSound(w, reconnects);
    BegunAgrees(w, reconnects);
    hide AllSound, StagesAgree;
  }

  lemma {:induction false} DoneKeepsInv(w: State)
    requires Inv(w)
    ensures Inv(Done(w))
  {
    DoneSound(w);
    DoneAgrees(w);
    hide AllSound, StagesAgree;
  }

  lemma {:induction false} FailedKeepsInv(w: State)
    requires Inv(w)
    ensures Inv(Failed(w))
  {
    hide Sound, ExtendLeft, Reversed;
    SoundStep(w.telemetry, L.PutBack);
    SoundStep(w.topics, L.PutBack);
    SoundStep(w.events, L.PutBack);
  }

  lemma {:induction false} StepKeepsInv(lim: Limits, w: State, e: Event)
    requires Inv(w)
    ensures Inv(Step(lim, w, e))
  {
    hide Sound, Begun, Done, Failed, ItemsRecorded, Abs;
    match e
    case Record(row) => SoundStep(w.telemetry, L.Accept(row));
    case RecordTopics(robot, skew, now, batch) =>
      SoundStep(w.events, L.Accept(EventRow(robot, "clock", "")));
      assert Inv(SkewNoted(w, lim, robot, skew));
      ItemsKeepInv(SkewNoted(w, lim, robot, skew), lim, robot, skew, now, batch);
    case NoteEvent(row) => SoundStep(w.events, L.Accept(row));
    case FlushBegin(reconnects) => BegunKeepsInv(w, reconnects);
    case StoreDone => DoneKeepsInv(w);
    case StoreFailed => FailedKeepsInv(w);
  }

  /** Over every interleaving of records with flushes failing anywhere, each of the three streams conserves
      its rows with multiplicity and keeps their order. */
  lemma {:induction false} RunKeepsInv(lim: Limits, w: State, events: seq<Event>)
    requires Inv(w)
    ensures Inv(Run(lim, w, events))
    decreases |events|
  {
    if events != [] {
      StepKeepsInv(lim, w, events[0]);
      RunKeepsInv(lim, Step(lim, w, events[0]), events[1..]);
    }
  }

  lemma {:induction false} InitInv(telemetryMax: nat, eventsMax: nat, topicsMax: nat, ready: bool)
    ensures Inv(Init(telemetryMax, eventsMax, topicsMax, ready))
  {
    L.EmptyIsGood<TelemetryRow>(telemetryMax);
    L.EmptyIsGood<TopicRow>(topicsMax);
    L.EmptyIsGood<EventRow>(eventsMax);
  }

  // ---------------------------------------------------------------- stored exactly once

  datatype Which = OfTelemetry | OfTopics | OfEvents

  function OwnRank(x: Which): nat {
    match x
    case OfTelemetry => Rank(Telemetry)
    case OfTopics => Rank(Topics)
    case OfEvents => Rank(Events)
  }

  function InHand(w: State, x: Which): nat {
    match x
    case OfTelemetry => |w.telemetry.flight|
    case OfTopics => |w.topics.flight|
    case OfEvents => |w.events.flight|
  }

  function Replayed(w: State, x: Which): nat {
    match x
    case OfTelemetry => |w.telemetry.replayed|
    case OfTopics => |w.topics.replayed|
    case OfEvents => |w.events.replayed|
  }

  /** A flush with rows of this stream in hand fails at a stage after the stream's own. */
  predicate LateFailure(w: State, e: Event, x: Which) {
    e.StoreFailed? && Rank(w.stage) > OwnRank(x) && InHand(w, x) > 0
  }

  predicate HasLateFailure(lim: Limits, w: State, events: seq<Event>, x: Which)
    decreases |events|
  {
    events != [] && (LateFailure(w, events[0], x) || HasLateFailure(lim, Step(lim, w, events[0]), events[1..], x))
  }

  /** Recording a batch touches only the topic stream, the accumulator and two counters. */
  lemma {:induction false} ItemsFrame(w: State, lim: Limits, robot: string, skew: Option<int>, now: int,
                                      batch: seq<Item>)
    ensures var w' := ItemsRecorded(w, lim, robot, skew, now, batch);
            w' == w.(topics := w'.topics, pending := w'.pending, samples := w'.samples,
                     malformed := w'.malformed, clamped := w'.clamped)
            && w'.topics.replayed == w.topics.replayed && w'.topics.flight == w.topics.flight
  {
    if batch != [] {
      ItemsFrame(w, lim, robot, skew, now, batch[..|batch| - 1]);
    }
  }

  /** `a` and `b` have put back the same rows. */
  predicate SameReplays(a: State, b: State) {
    && a.telemetry.replayed == b.telemetry.replayed
    && a.topics.replayed == b.topics.replayed
    && a.events.replayed == b.events.replayed
  }

  lemma {:induction false} AdvancedReplays(w: State, s: Stage)
    ensures SameReplays(Advanced(w, s), w)
  {
    hide NextStage;
  }

  lemma {:induction false} QuietStepReplays(lim: Limits, w: State, e: Event)
    requires !e.StoreFailed?
    ensures SameReplays(Step(lim, w, e), w)
  {
    hide NextStage, Advanced;
    match e
    case RecordTopics(robot, skew, now, batch) =>
      ItemsFrame(SkewNoted(w, lim, robot, skew), lim, robot, skew, now, batch);
    case FlushBegin(_) => AdvancedReplays(Taken(w), Telemetry);
    case StoreDone => DoneReplays(w);
    case _ =>
  }

  lemma {:induction false} StoreKeepsReplayed<T>(s: L.Stream<T>)
    ensures L.Step(s, L.Store).replayed == s.replayed
  {
  }

  lemma {:induction false} DoneReplays(w: State)
    ensures SameReplays(Done(w), w)
  {
    StoreKeepsReplayed(w.telemetry);
    StoreKeepsReplayed(w.topics);
    StoreKeepsReplayed(w.events);
    hide NextStage, Advanced, L.Step;
    match w.stage
    case Telemetry => AdvancedReplays(w.(telemetry := L.Step(w.telemetry, L.Store)), Topics);
    case Topics => AdvancedReplays(w.(topics := L.Step(w.topics, L.Store)), Catalog);
    case Catalog => AdvancedReplays(w.(table := C.Upsert(w.table, w.flight)), Events);
    case Events => AdvancedReplays(w.(events := L.Step(w.events, L.Store)), Touch);
    case Touch => SettledReplays(w.(seenIds := {}));
    case Idle =>
  }

  lemma {:induction false} SettledReplays(w: State)
    ensures SameReplays(Settled(w), w)
  {
  }

  lemma {:induction false} StepReplays(lim: Limits, w: State, e: Event, x: Which)
    requires StagesAgree(w)
    ensures Replayed(Step(lim, w, e), x) >= Replayed(w, x)
    ensures Replayed(Step(lim, w, e), x) == Replayed(w, x) <==> !LateFailure(w, e, x)
  {
    if !e.StoreFailed? {
      hide Step, StagesAgree;
      QuietStepReplays(lim, w, e);
    }
  }

  lemma {:induction false} ReplayedIffLate(lim: Limits, w: State, events: seq<Event>, x: Which)
    requires Inv(w)
    ensures Replayed(Run(lim, w, events), x) >= Replayed(w, x)
    ensures Replayed(Run(lim, w, events), x) == Replayed(w, x) <==> !HasLateFailure(lim, w, events, x)
    decreases |events|
  {
    if events != [] {
      StepReplays(lim, w, events[0], x);
      StepKeepsInv(lim, w, events[0]);
      ReplayedIffLate(lim, Step(lim, w, events[0]), events[1..], x);
    }
  }

  /** Stored, in hand, queued and lost rows add up to the accepted rows, none counted twice. */
  predicate CountedOnce<T>(s: L.Stream<T>) {
    |s.accepted| == |s.stored| + |L.Pending(s)| + |s.queue| + |s.dropped| + |s.cut|
  }

  ghost predicate StoredInOrder<T(!new)>(s: L.Stream<T>) {
    && L.Subsequence(L.Outgoing(s), s.accepted)
    && (s.dropped == [] && s.cut == [] ==> L.Outgoing(s) == s.accepted)
  }

  lemma {:induction false} SoundCounts<T(!new)>(s: L.Stream<T>)
    requires Sound(s)
    ensures CountedOnce(s) <==> s.replayed == []
    ensures s.replayed == [] ==> StoredInOrder(s)
    ensures forall row :: row in s.accepted ==>
              row in s.stored || row in L.Pending(s) || row in s.queue || row in s.dropped || row in s.cut
  {
    assert |multiset(s.accepted) + multiset(s.replayed)| == |s.accepted| + |s.replayed|;
    assert |multiset(s.stored) + multiset(L.Pending(s)) + multiset(s.queue) + multiset(s.dropped) + multiset(s.cut)|
        == |s.stored| + |L.Pending(s)| + |s.queue| + |s.dropped| + |s.cut|;
    forall row | row in s.accepted
      ensures row in s.stored || row in L.Pending(s) || row in s.queue || row in s.dropped || row in s.cut
    {
      assert row in multiset(s.accepted) + multiset(s.replayed);
    }
  }

  /** The ledger of a stream adds up to its accepted rows exactly on the runs in which no flush fails after
      that stream's own stage, and on those runs its rows are in order. */
  lemma {:induction false} CountedOnceIffNoLateFailure(lim: Limits, telemetryMax: nat, eventsMax: nat, topicsMax: nat,
                                                       ready: bool, events: seq<Event>)
    ensures var w0 := Init(telemetryMax, eventsMax, topicsMax, ready);
            var w := Run(lim, w0, events);
            && (CountedOnce(w.telemetry) <==> !HasLateFailure(lim, w0, events, OfTelemetry))
            && (CountedOnce(w.topics) <==> !HasLateFailure(lim, w0, events, OfTopics))
            && (CountedOnce(w.events) <==> !HasLateFailure(lim, w0, events, OfEvents))
            && (!HasLateFailure(lim, w0, events, OfTelemetry) ==> StoredInOrder(w.telemetry))
            && (!HasLateFailure(lim, w0, events, OfTopics) ==> StoredInOrder(w.topics))
            && (!HasLateFailure(lim, w0, events, OfEvents) ==> StoredInOrder(w.events))
  {
    var w0 := Init(telemetryMax, eventsMax, topicsMax, ready);
    var w := Run(lim, w0, events);
    InitInv(telemetryMax, eventsMax, topicsMax, ready);
    RunKeepsInv(lim, w0, events);
    ReplayedIffLate(lim, w0, events, OfTelemetry);
    ReplayedIffLate(lim, w0, events, OfTopics);
    ReplayedIffLate(lim, w0, events, OfEvents);
    SoundCounts(w.telemetry);
    SoundCounts(w.topics);
    SoundCounts(w.events);
    hide Run, HasLateFailure, Sound, CountedOnce, StoredInOrder;
  }

  // ---------------------------------------------------------------- stored twice

  predicate AllDifferent(w: State, x: Which) {
    match x
    case OfTelemetry => Distinct(w.telemetry.accepted)
    case OfTopics => Distinct(w.topics.accepted)
    case OfEvents => Distinct(w.events.accepted)
  }

  /** Some row is stored, in hand or queued twice: stored twice, or stored and still to be stored again. */
  predicate Repeats(w: State, x: Which) {
    match x
    case OfTelemetry => !Distinct(L.Outgoing(w.telemetry))
    case OfTopics => !Distinct(L.Outgoing(w.topics))
    case OfEvents => !Distinct(L.Outgoing(w.events))
  }

  function Capacity(w: State, x: Which): nat {
    match x
    case OfTelemetry => w.telemetry.max
    case OfTopics => w.topics.max
    case OfEvents => w.events.max
  }

  lemma {:induction false} LateFailureRepeats(lim: Limits, w: State, e: Event, x: Which)
    requires Inv(w) && LateFailure(w, e, x) && Capacity(w, x) > 0
    ensures Repeats(Step(lim, w, e), x)
  {
    hide L.Step, L.Balanced, L.InOrder, L.Complete, Distinct;
    match x
    case OfTelemetry => L.LateFailureRepeats(w.telemetry);
    case OfTopics => L.LateFailureRepeats(w.topics);
    case OfEvents => L.LateFailureRepeats(w.events);
  }

  lemma {:induction false} OrderedIsDistinct<T(!new)>(s: L.Stream<T>)
    requires Sound(s) && s.replayed == [] && Distinct(s.accepted)
    ensures Distinct(L.Outgoing(s))
  {
    SoundCounts(s);
    L.SubsequenceDistinct(L.Outgoing(s), s.accepted);
  }

  lemma {:induction false} NoReplayNoRepeat(w: State, x: Which)
    requires Inv(w) && Replayed(w, x) == 0 && AllDifferent(w, x)
    ensures !Repeats(w, x)
  {
    hide Sound, Distinct;
    match x
    case OfTelemetry => OrderedIsDistinct(w.telemetry);
    case OfTopics => OrderedIsDistinct(w.topics);
    case OfEvents => OrderedIsDistinct(w.events);
  }

  /** `b` accepted what `a` did, and possibly more. */
  predicate Grew(a: State, b: State) {
    && a.telemetry.accepted <= b.telemetry.accepted && a.telemetry.max == b.telemetry.max
    && a.topics.accepted <= b.topics.accepted && a.topics.max == b.topics.max
    && a.events.accepted <= b.events.accepted && a.events.max == b.events.max
  }

  lemma {:induction false} AdvancedGrew(w: State, s: Stage)
    ensures Grew(w, Advanced(w, s))
  {
    hide NextStage;
  }

  lemma {:induction false} DoneGrew(w: State)
    ensures Grew(w, Done(w))
  {
    hide NextStage, Advanced;
    match w.stage
    case Telemetry => AdvancedGrew(w.(telemetry := L.Step(w.telemetry, L.Store)), Topics);
    case Topics => AdvancedGrew(w.(topics := L.Step(w.topics, L.Store)), Catalog);
    case Catalog => AdvancedGrew(w.(table := C.Upsert(w.table, w.flight)), Events);
    case Events => AdvancedGrew(w.(events := L.Step(w.events, L.Store)), Touch);
    case _ =>
  }

  lemma {:induction false} ItemsGrew(w: State, lim: Limits, robot: string, skew: Option<int>, now: int,
                                     batch: seq<Item>)
    ensures Grew(w, ItemsRecorded(w, lim, robot, skew, now, batch))
  {
    hide Correct, Correction, Clamped, SkewMs, C.Note;
    if batch != [] {
      ItemsGrew(w, lim, robot, skew, now, batch[..|batch| - 1]);
    }
  }

  lemma {:induction false} StepGrew(lim: Limits, w: State, e: Event)
    ensures Grew(w, Step(lim, w, e))
  {
    hide NextStage, Advanced, Done, Failed, Begun, ItemsRecorded, SkewNoted;
    match e
    case RecordTopics(robot, skew, now, batch) =>
      SkewGrew(w, lim, robot, skew);
      ItemsGrew(SkewNoted(w, lim, robot, skew), lim, robot, skew, now, batch);
      GrewTransitive(w, SkewNoted(w, lim, robot, skew), Step(lim, w, e));
    case FlushBegin(reconnects) => BegunGrew(w, reconnects);
    case StoreDone => DoneGrew(w);
    case StoreFailed => FailedGrew(w);
    case _ =>
  }

  lemma {:induction false} SkewGrew(w: State, lim: Limits, robot: string, skew: Option<int>)
    ensures Grew(w, SkewNoted(w, lim, robot, skew))
  {
    hide Abs;
  }

  lemma {:induction false} BegunGrew(w: State, reconnects: bool)
    ensures Grew(w, Begun(w, reconnects))
  {
    hide Advanced;
    AdvancedGrew(Taken(w), Telemetry);
  }

  lemma {:induction false} FailedGrew(w: State)
    ensures Grew(w, Failed(w))
  {
    hide ExtendLeft, Reversed;
  }

  lemma {:induction false} GrewTransitive(a: State, b: State, c: State)
    requires Grew(a, b) && Grew(b, c)
    ensures Grew(a, c)
  {
  }

  lemma {:induction false} RunGrew(lim: Limits, w: State, events: seq<Event>)
    ensures Grew(w, Run(lim, w, events))
    decreases |events|
  {
    hide Grew, Step;
    if events != [] {
      StepGrew(lim, w, events[0]);
      RunGrew(lim, Step(lim, w, events[0]), events[1..]);
      GrewTransitive(w, Step(lim, w, events[0]), Run(lim, w, events));
    } else {
      StepGrewNowhere(w);
    }
  }

  lemma {:induction false} StepGrewNowhere(w: State)
    ensures Grew(w, w)
  {
  }

  lemma {:induction false} EarlierIsDifferent(a: State, b: State, x: Which)
    requires Grew(a, b) && AllDifferent(b, x)
    ensures AllDifferent(a, x)
  {
  }

  lemma {:induction false} RunSplit(lim: Limits, w: State, a: seq<Event>, b: seq<Event>)
    ensures Run(lim, w, a + b) == Run(lim, Run(lim, w, a), b)
    decreases |a|
  {
    hide Step;
    if a == [] {
      assert a + b == b;
    } else {
      assert (a + b)[1..] == a[1..] + b;
      RunSplit(lim, Step(lim, w, a[0]), a[1..], b);
    }
  }

  lemma {:induction false} PrefixHasNoLateFailure(lim: Limits, w: State, events: seq<Event>, k: nat, x: Which)
    requires k <= |events| && !HasLateFailure(lim, w, events, x)
    ensures !HasLateFailure(lim, w, events[..k], x)
    decreases k
  {
    hide Step, LateFailure;
    if k > 0 {
      assert events[..k][1..] == events[1..][..k - 1];
      PrefixHasNoLateFailure(lim, Step(lim, w, events[0]), events[1..], k - 1, x);
    }
  }

  predicate RepeatsAfter(lim: Limits, w: State, events: seq<Event>, k: nat, x: Which)
    requires k <= |events|
  {
    Repeats(Run(lim, w, events[..k]), x)
  }

  lemma {:induction false} LateFailureShows(lim: Limits, w: State, events: seq<Event>, x: Which) returns (k: nat)
    requires Inv(w) && HasLateFailure(lim, w, events, x) && Capacity(w, x) > 0
    ensures k <= |events| && RepeatsAfter(lim, w, events, k, x)
    decreases |events|
  {
    hide Step, Repeats, Inv, LateFailure, Capacity, Grew;
    var e, w' := events[0], Step(lim, w, events[0]);
    if LateFailure(w, e, x) {
      k := 1;
      LateFailureRepeats(lim, w, e, x);
      assert events[..1] == [e] && [e][1..] == [];
      assert Run(lim, w', []) == w';
    } else {
      StepKeepsInv(lim, w, e);
      StepGrew(lim, w, e);
      SameCapacity(w, w', x);
      var n := LateFailureShows(lim, w', events[1..], x);
      k := n + 1;
      assert events[..k][1..] == events[1..][..n] && events[..k][0] == e;
    }
  }

  lemma {:induction false} SameCapacity(a: State, b: State, x: Which)
    requires Grew(a, b)
    ensures Capacity(a, x) == Capacity(b, x)
  {
  }

  lemma {:induction false} NoLateFailureNoRepeat(lim: Limits, w0: State, events: seq<Event>, k: nat, x: Which)
    requires Inv(w0) && Replayed(w0, x) == 0 && k <= |events|
    requires AllDifferent(Run(lim, w0, events), x) && !HasLateFailure(lim, w0, events, x)
    ensures !RepeatsAfter(lim, w0, events, k, x)
  {
    hide Inv, HasLateFailure, Repeats, AllDifferent, Run, Replayed, Grew;
    var w := Run(lim, w0, events[..k]);
    PrefixHasNoLateFailure(lim, w0, events, k, x);
    RunKeepsInv(lim, w0, events[..k]);
    ReplayedIffLate(lim, w0, events[..k], x);
    assert events == events[..k] + events[k..];
    RunSplit(lim, w0, events[..k], events[k..]);
    RunGrew(lim, w, events[k..]);
    EarlierIsDifferent(w, Run(lim, w0, events), x);
    NoReplayNoRepeat(w, x);
  }

  /** For rows that are all different, a stream is at some moment stored and to be stored again exactly on the
      runs in which a flush fails, rows of that stream in hand, after the stream's own stage. */
  lemma {:induction false} RepeatedIffLateFailure(lim: Limits, telemetryMax: nat, eventsMax: nat, topicsMax: nat,
                                                  ready: bool, events: seq<Event>, x: Which)
    requires AllDifferent(Run(lim, Init(telemetryMax, eventsMax, topicsMax, ready), events), x)
    requires Capacity(Init(telemetryMax, eventsMax, topicsMax, ready), x) > 0
    ensures var w0 := Init(telemetryMax, eventsMax, topicsMax, ready);
            (exists k :: 0 <= k <= |events| && RepeatsAfter(lim, w0, events, k, x))
              <==> HasLateFailure(lim, w0, events, x)
  {
    var w0 := Init(telemetryMax, eventsMax, topicsMax, ready);
    InitInv(telemetryMax, eventsMax, topicsMax, ready);
    assert Replayed(w0, x) == 0;
    hide Inv, Init, HasLateFailure, AllDifferent, Run, Replayed, Capacity, RepeatsAfter;
    if HasLateFailure(lim, w0, events, x) {
      var k := LateFailureShows(lim, w0, events, x);
    } else {
      forall k | 0 <= k <= |events| ensures !RepeatsAfter(lim, w0, events, k, x) {
        NoLateFailureNoRepeat(lim, w0, events, k, x);
      }
    }
  }

  /** Whatever fails, an accepted row is stored, in hand, queued, or counted among the dropped or cut rows; and
      one failed flush cuts exactly the newest rows by which batch and arrivals exceed the buffer. */
  lemma {:induction false} NoRowVanishes(lim: Limits, telemetryMax: nat, eventsMax: nat, topicsMax: nat, ready: bool,
                                         events: seq<Event>)
    ensures var w := Run(lim, Init(telemetryMax, eventsMax, topicsMax, ready), events);
            var t := w.topics;
            var f := Failed(w).topics;
            && (forall row :: row in t.accepted ==>
                  row in t.stored || row in L.Pending(t) || row in t.queue || row in t.dropped || row in t.cut)
            && (w.stage != Idle ==>
                  && f.queue + f.cut[|t.cut|..] == t.flight + t.queue
                  && |f.cut| - |t.cut| ==
                       (if |t.flight| + |t.queue| > t.max then |t.flight| + |t.queue| - t.max else 0))
  {
    var w0 := Init(telemetryMax, eventsMax, topicsMax, ready);
    var w := Run(lim, w0, events);
    InitInv(telemetryMax, eventsMax, topicsMax, ready);
    RunKeepsInv(lim, w0, events);
    SoundCounts(w.topics);
    L.PutBackCutsNewest(w.topics);
  }
}
