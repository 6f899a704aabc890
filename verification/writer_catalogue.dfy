/** The topic catalogue over runs of the writer: what failing flushes do to its counts, its readings and its change
    stamps. */
module WriterCatalogue {
  import opened Options
  import opened Clock
  import opened Writer
  import C = Catalogue
  import L = StreamLedger

  // ---------------------------------------------------------------- the catalogue under failures

  function SamplesOf(t: C.Table, k: C.Key): nat {
    if k in t then t[k].samples else 0
  }

  /** The catalogue rows in hand that are not stored yet. */
  function Unstored(w: State): C.Table {
    if Rank(w.stage) <= Rank(Catalog) then w.flight else map[]
  }

  function Held(w: State, k: C.Key): nat {
    SamplesOf(w.table, k) + SamplesOf(Unstored(w), k) + SamplesOf(w.pending, k)
  }

  function CountOf(samples: seq<C.Sample>, k: C.Key): nat {
    if samples == [] then 0
    else CountOf(samples[..|samples| - 1], k) + (if samples[|samples| - 1].key == k then 1 else 0)
  }

  /** The samples a failed flush forgets: those accumulated while it was under way, for a topic it had in hand. */
  function Overwritten(w: State, e: Event, k: C.Key): nat {
    if e.StoreFailed? && w.stage != Idle && k in w.flight then SamplesOf(w.pending, k) else 0
  }

  /** The samples a failed flush will count again: it fails after the catalogue was stored. */
  function CountedAgain(w: State, e: Event, k: C.Key): nat {
    if e.StoreFailed? && Rank(w.stage) > Rank(Catalog) then SamplesOf(w.flight, k) else 0
  }

  function TotalOverwritten(lim: Limits, w: State, events: seq<Event>, k: C.Key): nat
    decreases |events|
  {
    if events == [] then 0
    else Overwritten(w, events[0], k) + TotalOverwritten(lim, Step(lim, w, events[0]), events[1..], k)
  }

  function TotalAgain(lim: Limits, w: State, events: seq<Event>, k: C.Key): nat
    decreases |events|
  {
    if events == [] then 0
    else CountedAgain(w, events[0], k) + TotalAgain(lim, Step(lim, w, events[0]), events[1..], k)
  }

  lemma {:induction false} CountSnoc(samples: seq<C.Sample>, s: C.Sample, k: C.Key)
    ensures CountOf(samples + [s], k) == CountOf(samples, k) + (if s.key == k then 1 else 0)
  {
    assert (samples + [s])[..|samples|] == samples;
  }

  /** Recording an element notes its sample and leaves table and flush alone. */
  lemma {:induction false} ItemMemory(w: State, lim: Limits, robot: string, skew: Option<int>, now: int, item: Item)
    ensures var w' := ItemRecorded(w, lim, robot, skew, now, item);
            && w'.table == w.table && w'.flight == w.flight && w'.stage == w.stage
            && if Usable(item) then
                 var s := SampleOf(RowOf(lim, robot, skew, now, item));
                 w'.pending == C.Note(w.pending, s) && w'.samples == w.samples + [s]
               else w'.pending == w.pending && w'.samples == w.samples
  {
    hide C.Note, RowOf, SampleOf, Clamped, L.Step;
  }

  lemma {:induction false} ItemCounted(w: State, lim: Limits, robot: string, skew: Option<int>, now: int, item: Item,
                                       k: C.Key)
    ensures var w' := ItemRecorded(w, lim, robot, skew, now, item);
            Held(w', k) + CountOf(w.samples, k) == Held(w, k) + CountOf(w'.samples, k)
  {
    ItemMemory(w, lim, robot, skew, now, item);
    hide ItemRecorded, RowOf, SampleOf, CountOf;
    if Usable(item) {
      CountSnoc(w.samples, SampleOf(RowOf(lim, robot, skew, now, item)), k);
    }
  }

  lemma {:induction false} ItemsCounted(w: State, lim: Limits, robot: string, skew: Option<int>, now: int,
                                        batch: seq<Item>, k: C.Key)
    ensures var w' := ItemsRecorded(w, lim, robot, skew, now, batch);
            Held(w', k) + CountOf(w.samples, k) == Held(w, k) + CountOf(w'.samples, k)
  {
    hide Held, CountOf, ItemRecorded;
    if batch != [] {
      var init := batch[..|batch| - 1];
      ItemsCounted(w, lim, robot, skew, now, init, k);
      ItemCounted(ItemsRecorded(w, lim, robot, skew, now, init), lim, robot, skew, now, batch[|batch| - 1], k);
    }
  }

  /** A flush only moves catalogue entries about. */
  lemma {:induction false} AdvancedMemory(w: State, s: Stage)
    ensures var w' := Advanced(w, s);
            && w'.pending == w.pending && w'.table == w.table && w'.samples == w.samples
            && (w'.flight == w.flight || w'.flight == map[])
  {
    hide NextStage, L.Step;
  }

  lemma {:induction false} BegunMemory(w: State, reconnects: bool)
    ensures var b := Begun(w, reconnects);
            && b.table == w.table && b.samples == w.samples
            && (|| (b.pending == w.pending && b.flight == w.flight)
                || (b.pending == map[] && (b.flight == w.pending || b.flight == map[])))
  {
    hide Advanced, L.Step;
    AdvancedMemory(Taken(w), Telemetry);
  }

  lemma {:induction false} DoneMemory(w: State)
    ensures var d := Done(w);
            && d.pending == w.pending && d.samples == w.samples && (d.flight == w.flight || d.flight == map[])
            && d.table == if w.stage == Catalog then C.Upsert(w.table, w.flight) else w.table
  {
    hide Advanced, L.Step, C.Upsert;
    match w.stage
    case Telemetry => AdvancedMemory(w.(telemetry := L.Step(w.telemetry, L.Store)), Topics);
    case Topics => AdvancedMemory(w.(topics := L.Step(w.topics, L.Store)), Catalog);
    case Catalog => AdvancedMemory(w.(table := C.Upsert(w.table, w.flight)), Events);
    case Events => AdvancedMemory(w.(events := L.Step(w.events, L.Store)), Touch);
    case _ =>
  }

  lemma {:induction false} FailedMemory(w: State)
    ensures var f := Failed(w);
            && f.table == w.table && f.samples == w.samples
            && (if w.stage == Idle then f == w
                else f.flight == map[] && f.pending == w.pending + w.flight && f.stage == Idle)
  {
    hide L.Step;
  }

  /** Advancing passes the catalogue stage only if nothing is in hand for it. */
  lemma {:induction false} AdvancedUnstored(w: State, s: Stage)
    requires s != Idle && Rank(w.stage) <= Rank(s)
    requires Rank(s) > Rank(Catalog) ==> Rank(w.stage) > Rank(Catalog)
    ensures Unstored(Advanced(w, s)) == Unstored(w)
  {
    NextStageIs(w, s);
    hide NextStage, L.Step;
  }

  lemma {:induction false} AdvancedHolds(w: State, s: Stage, k: C.Key)
    requires s != Idle && Rank(w.stage) <= Rank(s)
    requires Rank(s) > Rank(Catalog) ==> Rank(w.stage) > Rank(Catalog)
    ensures Held(Advanced(w, s), k) == Held(w, k) && Advanced(w, s).samples == w.samples
  {
    AdvancedUnstored(w, s);
    AdvancedMemory(w, s);
    hide Advanced, Unstored;
  }

  lemma {:induction false} UpsertCounts(table: C.Table, cat: C.Table, k: C.Key)
    ensures SamplesOf(C.Upsert(table, cat), k) == SamplesOf(table, k) + SamplesOf(cat, k)
  {
  }

  lemma {:induction false} NothingCounted(k: C.Key)
    ensures SamplesOf(map[], k) == 0
  {
  }

  lemma {:induction false} CatalogDoneHolds(w: State, k: C.Key)
    requires w.stage == Catalog
    ensures Held(Done(w), k) == Held(w, k) && Done(w).samples == w.samples
  {
    hide NextStage, Advanced, C.Upsert;
    UpsertCounts(w.table, w.flight, k);
    var w' := w.(table := C.Upsert(w.table, w.flight), stage := Events);
    AdvancedHolds(w', Events, k);
    SameAdvance(w.(table := C.Upsert(w.table, w.flight)), w', Events);
  }

  lemma {:induction false} DoneHolds(w: State, k: C.Key)
    ensures Held(Done(w), k) == Held(w, k) && Done(w).samples == w.samples
  {
    hide NextStage, Advanced, C.Upsert, L.Step, SamplesOf;
    NothingCounted(k);
    match w.stage
    case Idle =>
    case Telemetry => AdvancedHolds(w.(telemetry := L.Step(w.telemetry, L.Store)), Topics, k);
    case Topics => AdvancedHolds(w.(topics := L.Step(w.topics, L.Store)), Catalog, k);
    case Catalog => CatalogDoneHolds(w, k);
    case Events => AdvancedHolds(w.(events := L.Step(w.events, L.Store)), Touch, k);
    case Touch =>
  }

  /** `Advanced` does not look at the stage it leaves. */
  lemma {:induction false} SameNextStage(w: State, w': State, s: Stage)
    requires w' == w.(stage := w'.stage)
    ensures NextStage(w, s) == NextStage(w', s)
    decreases 5 - Rank(s)
  {
    match s
    case Idle =>
    case Telemetry => SameNextStage(w, w', Topics);
    case Topics => SameNextStage(w, w', Catalog);
    case Catalog => SameNextStage(w, w', Events);
    case Events => SameNextStage(w, w', Touch);
    case Touch =>
  }

  lemma {:induction false} SameAdvance(w: State, w': State, s: Stage)
    requires w' == w.(stage := w'.stage)
    ensures Advanced(w, s) == Advanced(w', s)
  {
    SameNextStage(w, w', s);
    hide NextStage;
  }

  lemma {:induction false} BegunHolds(w: State, reconnects: bool, k: C.Key)
    requires StagesAgree(w)
    ensures Held(Begun(w, reconnects), k) == Held(w, k) && Begun(w, reconnects).samples == w.samples
  {
    if CanFlush(w, reconnects) {
      AdvancedHolds(Taken(w), Telemetry, k);
    }
  }

  lemma {:induction false} StepCounts(lim: Limits, w: State, e: Event, k: C.Key)
    requires StagesAgree(w)
    ensures Held(Step(lim, w, e), k) + Overwritten(w, e, k) + CountOf(w.samples, k)
         == Held(w, k) + CountedAgain(w, e, k) + CountOf(Step(lim, w, e).samples, k)
  {
    hide CountOf, L.Step, Begun, Done, Failed, ItemsRecorded, SkewNoted;
    match e
    case RecordTopics(robot, skew, now, batch) =>
      SkewFrame(w, lim, robot, skew);
      ItemsCounted(SkewNoted(w, lim, robot, skew), lim, robot, skew, now, batch, k);
    case FlushBegin(reconnects) => BegunHolds(w, reconnects, k);
    case StoreDone => DoneHolds(w, k);
    case StoreFailed => FailedHolds(w, k);
    case _ =>
  }

  lemma {:induction false} FailedHolds(w: State, k: C.Key)
    requires StagesAgree(w)
    ensures Held(Failed(w), k) + Overwritten(w, StoreFailed, k) == Held(w, k) + CountedAgain(w, StoreFailed, k)
    ensures Failed(w).samples == w.samples
  {
    hide L.Step;
  }

  lemma {:induction false} SkewFrame(w: State, lim: Limits, robot: string, skew: Option<int>)
    ensures var w' := SkewNoted(w, lim, robot, skew);
            w' == w.(events := w'.events, skewWarned := w'.skewWarned, skews := w'.skews)
  {
    hide L.Step;
  }

  /** Per topic, over every run: the counts stored, in hand and pending, plus what failed flushes overwrote,
      equal the samples accepted plus what failed flushes counted again.  The catalogue therefore counts
      right exactly when the two errors cancel, and on every run without a failure. */
  lemma {:induction false} CatalogueLedger(lim: Limits, w: State, events: seq<Event>, k: C.Key)
    requires Inv(w)
    ensures var w' := Run(lim, w, events);
            Held(w', k) + TotalOverwritten(lim, w, events, k) + CountOf(w.samples, k)
            == Held(w, k) + TotalAgain(lim, w, events, k) + CountOf(w'.samples, k)
    decreases |events|
  {
    if events != [] {
      StepCounts(lim, w, events[0], k);
      StepKeepsInv(lim, w, events[0]);
      CatalogueLedger(lim, Step(lim, w, events[0]), events[1..], k);
    }
  }

  // ---------------------------------------------------------------- the catalogue as one fold

  /** What the table will hold once everything in hand and pending has been stored. */
  function Eventual(w: State): C.Table {
    C.Upsert(C.Upsert(w.table, Unstored(w)), w.pending)
  }

  lemma {:induction false} ItemFolded(w: State, lim: Limits, robot: string, skew: Option<int>, now: int, item: Item)
    requires C.Agree(Eventual(w), C.Fold(w.samples))
    ensures var w' := ItemRecorded(w, lim, robot, skew, now, item); C.Agree(Eventual(w'), C.Fold(w'.samples))
  {
    ItemMemory(w, lim, robot, skew, now, item);
    hide C.Agree, C.Note, C.Upsert, ItemRecorded, RowOf, SampleOf;
    if Usable(item) {
      var s, samples' := SampleOf(RowOf(lim, robot, skew, now, item)),
        ItemRecorded(w, lim, robot, skew, now, item).samples;
      assert samples'[..|samples'| - 1] == w.samples;
      var base := C.Upsert(w.table, Unstored(w));
      C.UpsertNoted(base, w.pending, s);
      C.NoteAgrees(Eventual(w), C.Fold(w.samples), s);
      AgreeTransitive(C.Upsert(base, C.Note(w.pending, s)), C.Note(Eventual(w), s), C.Note(C.Fold(w.samples), s));
    }
  }

  lemma {:induction false} AgreeTransitive(a: C.Table, b: C.Table, c: C.Table)
    requires C.Agree(a, b) && C.Agree(b, c)
    ensures C.Agree(a, c)
  {
  }

  lemma {:induction false} ItemsFolded(w: State, lim: Limits, robot: string, skew: Option<int>, now: int,
                                       batch: seq<Item>)
    requires C.Agree(Eventual(w), C.Fold(w.samples))
    ensures var w' := ItemsRecorded(w, lim, robot, skew, now, batch); C.Agree(Eventual(w'), C.Fold(w'.samples))
  {
    hide C.Agree, C.Fold, Eventual, ItemRecorded;
    if batch != [] {
      var init := batch[..|batch| - 1];
      ItemsFolded(w, lim, robot, skew, now, init);
      ItemFolded(ItemsRecorded(w, lim, robot, skew, now, init), lim, robot, skew, now, batch[|batch| - 1]);
    }
  }

  lemma {:induction false} AdvancedEventual(w: State, s: Stage)
    requires s != Idle && Rank(w.stage) <= Rank(s)
    requires Rank(s) > Rank(Catalog) ==> Rank(w.stage) > Rank(Catalog)
    ensures Eventual(Advanced(w, s)) == Eventual(w) && Advanced(w, s).samples == w.samples
  {
    AdvancedUnstored(w, s);
    AdvancedMemory(w, s);
    hide Advanced, C.Upsert, Unstored;
  }

  lemma {:induction false} StepEventual(lim: Limits, w: State, e: Event)
    requires StagesAgree(w) && (e.StoreFailed? ==> KeepsReadings(w))
    requires C.Agree(Eventual(w), C.Fold(w.samples))
    ensures C.Agree(Eventual(Step(lim, w, e)), C.Fold(Step(lim, w, e).samples))
  {
    hide NextStage, C.Agree, C.Fold, C.Upsert, Eventual, Taken, KeepsReadings, ItemsRecorded, Done, Begun, Failed;
    match e
    case StoreFailed =>
      if w.stage != Idle {
        ReadingsKept(w);
        AgreeTransitive(Eventual(Failed(w)), Eventual(w), C.Fold(w.samples));
      }
      FailedSamples(w);
    case Record(row) => OtherEventual(w, Recorded(w, row));
    case NoteEvent(row) => OtherEventual(w, EventNoted(w, row));
    case RecordTopics(robot, skew, now, batch) =>
      hide SkewNoted;
      OtherEventual(w, SkewNoted(w, lim, robot, skew)) by {
        SkewFrame(w, lim, robot, skew);
      }
      SkewFrame(w, lim, robot, skew);
      ItemsFolded(SkewNoted(w, lim, robot, skew), lim, robot, skew, now, batch);
    case FlushBegin(reconnects) => BegunEventual(w, reconnects);
    case StoreDone => DoneEventual(w);
  }

  lemma {:induction false} OtherEventual(w: State, w': State)
    requires w'.table == w.table && w'.flight == w.flight && w'.pending == w.pending && w'.stage == w.stage
    ensures Eventual(w') == Eventual(w)
  {
    hide C.Upsert;
  }

  lemma {:induction false} FailedSamples(w: State)
    ensures Failed(w).samples == w.samples
    ensures w.stage == Idle ==> Failed(w) == w
  {
    hide L.Step;
  }

  predicate SameReading(a: C.Entry, b: C.Entry) {
    a.samples == b.samples && a.lastValue == b.lastValue && a.lastSeen == b.lastSeen
  }

  /** What a failing flush must find in memory for each catalogue entry it has in hand, to leave counts and readings
      as they will come to be.  Before the catalogue is stored: nothing accumulated meanwhile, as that would be
      overwritten.  After: exactly as much as will be counted again. */
  predicate KeepsReadings(w: State) {
    forall k :: k in w.flight ==>
      if Rank(w.stage) <= Rank(Catalog) then k !in w.pending
      else k in w.pending && SameReading(w.pending[k], w.flight[k])
  }

  /** To leave the change stamps as well: what accumulated after the catalogue was stored carries no newer one. */
  predicate Harmless(w: State) {
    && KeepsReadings(w)
    && (Rank(w.stage) > Rank(Catalog) ==>
          forall k :: k in w.flight && k in w.pending ==> NoNewerChange(w.table, w.pending, k))
  }

  predicate NoNewerChange(table: C.Table, cat: C.Table, k: C.Key)
    requires k in cat
  {
    cat[k].lastChanged == 0 || (k in table && cat[k].lastChanged <= table[k].lastChanged)
  }

  lemma {:induction false} FailedIs(w: State)
    requires w.stage != Idle
    ensures Eventual(Failed(w)) == C.Upsert(w.table, w.pending + w.flight)
  {
    hide L.Step;
    C.UpsertNothing(w.table);
  }

  lemma {:induction false} ReadingsKept(w: State)
    requires w.stage != Idle && KeepsReadings(w)
    ensures C.Agree(Eventual(Failed(w)), Eventual(w))
  {
    FailedIs(w);
    hide Failed;
    C.UpsertNothing(w.table);
  }

  predicate Counted(t: C.Table) {
    forall k :: k in t ==> t[k].samples >= 1
  }

  lemma {:induction false} ReadingsLost(w: State)
    requires w.stage != Idle && Counted(w.pending) && Counted(w.flight) && !KeepsReadings(w)
    ensures !C.Agree(Eventual(Failed(w)), Eventual(w))
  {
    FailedIs(w);
    C.UpsertNothing(w.table);
    hide Failed;
    var k :| k in w.flight && !(if Rank(w.stage) <= Rank(Catalog) then k !in w.pending
                                else k in w.pending && SameReading(w.pending[k], w.flight[k]));
    var before, after := Eventual(w), C.Upsert(w.table, w.pending + w.flight);
    assert k in after && (k in before ==> !SameReading(before[k], after[k]));
  }

  /** Once the catalogue of a flush is stored, the table has everything in hand, change stamps too. */
  predicate Absorbed(w: State) {
    forall k :: k in w.flight ==> k in w.table && NoNewerChange(w.table, w.flight, k)
  }

  predicate Merges(w: State) {
    Rank(w.stage) > Rank(Catalog) ==> Absorbed(w)
  }

  lemma {:induction false} EarlyFailureIff(w: State)
    requires 0 < Rank(w.stage) <= Rank(Catalog) && Counted(w.pending) && Counted(w.flight)
    ensures Eventual(Failed(w)) == Eventual(w) <==> KeepsReadings(w)
  {
    if KeepsReadings(w) {
      FailedIs(w);
      hide Failed;
      C.UpsertApart(w.table, w.flight, w.pending);
    } else {
      ReadingsLost(w);
    }
  }

  lemma {:induction false} LateFailureIff(w: State)
    requires Rank(w.stage) > Rank(Catalog) && Absorbed(w) && Counted(w.pending) && Counted(w.flight)
    ensures Eventual(Failed(w)) == Eventual(w) <==> Harmless(w)
  {
    if !KeepsReadings(w) {
      ReadingsLost(w);
    } else {
      FailedIs(w);
      C.UpsertNothing(w.table);
      hide Failed;
      var before, after := C.Upsert(w.table, w.pending), C.Upsert(w.table, w.pending + w.flight);
      assert Eventual(w) == before;
      assert before.Keys == after.Keys;
      if Harmless(w) {
        assert forall k :: k in before ==> before[k] == after[k];
      } else {
        var k :| k in w.flight && k in w.pending && !NoNewerChange(w.table, w.pending, k);
        assert before[k] != after[k];
      }
    }
  }

  predicate InMemoryCounted(w: State) {
    Counted(w.pending) && Counted(w.flight)
  }

  lemma {:induction false} ItemsKeepCounted(w: State, lim: Limits, robot: string, skew: Option<int>, now: int,
                                            batch: seq<Item>)
    requires InMemoryCounted(w)
    ensures InMemoryCounted(ItemsRecorded(w, lim, robot, skew, now, batch))
  {
    hide Correct, Correction, Clamped, SkewMs, L.Step;
    if batch != [] {
      ItemsKeepCounted(w, lim, robot, skew, now, batch[..|batch| - 1]);
    }
  }

  lemma {:induction false} StepKeepsCounted(lim: Limits, w: State, e: Event)
    requires InMemoryCounted(w)
    ensures InMemoryCounted(Step(lim, w, e))
  {
    hide ItemsRecorded, SkewNoted, Counted, Begun, Done, Failed;
    NothingCountedIn();
    match e
    case RecordTopics(robot, skew, now, batch) =>
      SkewFrame(w, lim, robot, skew);
      ItemsKeepCounted(SkewNoted(w, lim, robot, skew), lim, robot, skew, now, batch);
    case FlushBegin(reconnects) => BegunMemory(w, reconnects);
    case StoreDone => DoneMemory(w);
    case StoreFailed => FailedMemory(w);
    case _ =>
  }

  lemma {:induction false} NothingCountedIn()
    ensures Counted(map[])
    ensures forall a, b :: Counted(a) && Counted(b) ==> Counted(a + b)
  {
  }

  lemma {:induction false} AdvancedMerges(w: State, s: Stage)
    requires s != Idle && (Rank(s) > Rank(Catalog) ==> Absorbed(w))
    ensures Merges(Advanced(w, s))
  {
    NextStageIs(w, s);
    hide NextStage, L.Step, NoNewerChange;
  }

  lemma {:induction false} StoredIsAbsorbed(w: State)
    ensures Absorbed(w.(table := C.Upsert(w.table, w.flight)))
  {
  }

  lemma {:induction false} DoneMerges(w: State)
    requires Merges(w)
    ensures Merges(Done(w))
  {
    hide Advanced, L.Step, C.Upsert, NoNewerChange;
    match w.stage
    case Idle =>
    case Telemetry => AdvancedMerges(w.(telemetry := L.Step(w.telemetry, L.Store)), Topics);
    case Topics => AdvancedMerges(w.(topics := L.Step(w.topics, L.Store)), Catalog);
    case Catalog => StoredIsAbsorbed(w); AdvancedMerges(w.(table := C.Upsert(w.table, w.flight)), Events);
    case Events => AdvancedMerges(w.(events := L.Step(w.events, L.Store)), Touch);
    case Touch =>
  }

  /** What a step other than a failure or a flush leaves alone. */
  predicate SameFlush(w: State, w': State) {
    w'.table == w.table && w'.flight == w.flight && w'.stage == w.stage
  }

  lemma {:induction false} TopicsKeepFlush(w: State, lim: Limits, robot: string, skew: Option<int>, now: int,
                                           batch: seq<Item>)
    ensures SameFlush(w, TopicsRecorded(w, lim, robot, skew, now, batch))
  {
    SkewFrame(w, lim, robot, skew);
    ItemsFrame(SkewNoted(w, lim, robot, skew), lim, robot, skew, now, batch);
    hide SkewNoted, ItemsRecorded;
  }

  lemma {:induction false} StepKeepsMerges(lim: Limits, w: State, e: Event)
    requires Merges(w)
    ensures Merges(Step(lim, w, e))
  {
    hide TopicsRecorded, Advanced, Done, Failed, Absorbed, L.Step;
    match e
    case RecordTopics(robot, skew, now, batch) =>
      TopicsKeepFlush(w, lim, robot, skew, now, batch);
      MergesFrame(w, Step(lim, w, e));
    case FlushBegin(_) => AdvancedMerges(Taken(w), Telemetry);
    case StoreDone => DoneMerges(w);
    case StoreFailed => FailedMemory(w);
    case _ => MergesFrame(w, Step(lim, w, e));
  }

  lemma {:induction false} MergesFrame(w: State, w': State)
    requires Merges(w) && SameFlush(w, w')
    ensures Merges(w')
  {
  }

  /** What every reachable state of the writer has in memory. */
  ghost predicate InMemory(w: State) {
    InMemoryCounted(w) && Merges(w) && StagesAgree(w)
  }

  lemma {:induction false} StepKeepsMemory(lim: Limits, w: State, e: Event)
    requires Inv(w) && InMemory(w)
    ensures Inv(Step(lim, w, e)) && InMemory(Step(lim, w, e))
  {
    hide Step, Merges, InMemoryCounted;
    StepKeepsInv(lim, w, e);
    StepKeepsCounted(lim, w, e);
    StepKeepsMerges(lim, w, e);
  }

  lemma {:induction false} RunKeepsMemory(lim: Limits, w: State, events: seq<Event>)
    requires Inv(w) && InMemory(w)
    ensures Inv(Run(lim, w, events)) && InMemory(Run(lim, w, events))
    decreases |events|
  {
    hide Step, Inv, InMemory;
    if events != [] {
      StepKeepsMemory(lim, w, events[0]);
      RunKeepsMemory(lim, Step(lim, w, events[0]), events[1..]);
    }
  }

  lemma {:induction false} InitMemory(telemetryMax: nat, eventsMax: nat, topicsMax: nat, ready: bool)
    ensures var w0 := Init(telemetryMax, eventsMax, topicsMax, ready); Inv(w0) && InMemory(w0)
  {
    InitInv(telemetryMax, eventsMax, topicsMax, ready);
  }

  /** In every reachable state a failing flush leaves the catalogue that will come to be exactly as it was if and
      only if it is harmless, and leaves it so but for change stamps if and only if it keeps the readings.  Both can
      be told before it fails. */
  lemma {:induction false} FailureHarmlessIff(lim: Limits, telemetryMax: nat, eventsMax: nat, topicsMax: nat,
                                              ready: bool, events: seq<Event>)
    requires Run(lim, Init(telemetryMax, eventsMax, topicsMax, ready), events).stage != Idle
    ensures var w := Run(lim, Init(telemetryMax, eventsMax, topicsMax, ready), events);
            && (Eventual(Failed(w)) == Eventual(w) <==> Harmless(w))
            && (C.Agree(Eventual(Failed(w)), Eventual(w)) <==> KeepsReadings(w))
  {
    var w0 := Init(telemetryMax, eventsMax, topicsMax, ready);
    InitMemory(telemetryMax, eventsMax, topicsMax, ready);
    RunKeepsMemory(lim, w0, events);
    hide Run, Inv;
    FailureIff(Run(lim, w0, events));
  }

  lemma {:induction false} FailureIff(w: State)
    requires InMemory(w) && w.stage != Idle
    ensures Eventual(Failed(w)) == Eventual(w) <==> Harmless(w)
    ensures C.Agree(Eventual(Failed(w)), Eventual(w)) <==> KeepsReadings(w)
  {
    hide Eventual, Failed, KeepsReadings, Absorbed, Counted, C.Agree;
    if KeepsReadings(w) {
      ReadingsKept(w);
    } else {
      ReadingsLost(w);
    }
    if Rank(w.stage) <= Rank(Catalog) {
      EarlyFailureIff(w);
    } else {
      LateFailureIff(w);
    }
  }

  /** Every flush that fails keeps the readings. */
  predicate FailsKeepingReadings(lim: Limits, w: State, events: seq<Event>)
    decreases |events|
  {
    events != [] ==>
      && (events[0].StoreFailed? ==> KeepsReadings(w))
      && FailsKeepingReadings(lim, Step(lim, w, events[0]), events[1..])
  }

  lemma {:induction false} BegunEventual(w: State, reconnects: bool)
    requires StagesAgree(w)
    ensures Eventual(Begun(w, reconnects)) == Eventual(w) && Begun(w, reconnects).samples == w.samples
  {
    if CanFlush(w, reconnects) {
      AdvancedEventual(Taken(w), Telemetry);
      C.UpsertNothing(w.table);
      C.UpsertNothing(C.Upsert(w.table, w.pending));
    }
  }

  lemma {:induction false} DoneEventual(w: State)
    ensures Eventual(Done(w)) == Eventual(w) && Done(w).samples == w.samples
  {
    hide NextStage, Advanced, C.Upsert, L.Step;
    match w.stage
    case Idle =>
    case Telemetry => AdvancedEventual(w.(telemetry := L.Step(w.telemetry, L.Store)), Topics);
    case Topics => AdvancedEventual(w.(topics := L.Step(w.topics, L.Store)), Catalog);
    case Catalog => CatalogueDoneEventual(w);
    case Events => AdvancedEventual(w.(events := L.Step(w.events, L.Store)), Touch);
    case Touch =>
  }

  lemma {:induction false} CatalogueDoneEventual(w: State)
    requires w.stage == Catalog
    ensures Eventual(Done(w)) == Eventual(w) && Done(w).samples == w.samples
  {
    hide Advanced, C.Upsert;
    var w' := w.(table := C.Upsert(w.table, w.flight), stage := Events);
    AdvancedEventual(w', Events);
    SameAdvance(w.(table := C.Upsert(w.table, w.flight)), w', Events);
    C.UpsertNothing(w'.table);
  }

  /** Wherever the flushes fall, whatever is recorded while they run, and as long as those that fail keep the
      readings, the stored, in-hand and pending catalogue together are, change stamps aside, one fold over every
      accepted sample. */
  lemma {:induction false} CatalogueIsOneFold(lim: Limits, w: State, events: seq<Event>)
    requires Inv(w) && C.Agree(Eventual(w), C.Fold(w.samples))
    requires FailsKeepingReadings(lim, w, events)
    ensures C.Agree(Eventual(Run(lim, w, events)), C.Fold(Run(lim, w, events).samples))
    decreases |events|
  {
    hide Step, Inv, C.Agree, C.Fold, Eventual, KeepsReadings;
    if events != [] {
      InvAgrees(w);
      StepEventual(lim, w, events[0]);
      StepKeepsInv(lim, w, events[0]);
      CatalogueIsOneFold(lim, Step(lim, w, events[0]), events[1..]);
    }
  }

  lemma {:induction false} InvAgrees(w: State)
    requires Inv(w)
    ensures StagesAgree(w)
  {
  }

  // ---------------------------------------------------------------- the change stamps

  /** Every flush that fails does so harmlessly. */
  predicate FailsHarmlessly(lim: Limits, w: State, events: seq<Event>)
    decreases |events|
  {
    events != [] ==>
      && (events[0].StoreFailed? ==> Harmless(w))
      && FailsHarmlessly(lim, Step(lim, w, events[0]), events[1..])
  }

  lemma {:induction false} HarmlessKeepsReadings(lim: Limits, w: State, events: seq<Event>)
    requires FailsHarmlessly(lim, w, events)
    ensures FailsKeepingReadings(lim, w, events)
    decreases |events|
  {
    hide Step, KeepsReadings;
    if events != [] {
      HarmlessKeepsReadings(lim, Step(lim, w, events[0]), events[1..]);
    }
  }

  /** No change stamp in memory or in the table exceeds `g`. */
  predicate Below(w: State, k: C.Key, g: int) {
    C.ChangedAt(w.table, k) <= g && C.ChangedAt(w.flight, k) <= g && C.ChangedAt(w.pending, k) <= g
  }

  /** The stamp that will come to be is no less than that of the newest change, and no greater than the greatest. */
  predicate AtLeastNewest(w: State, k: C.Key) {
    C.LastChange(w.samples, k) <= C.ChangedAt(Eventual(w), k)
  }

  predicate AtMostGreatest(w: State, k: C.Key) {
    Below(w, k, C.GreatestChange(w.samples, k))
  }

  lemma {:induction false} EventualBelow(w: State, k: C.Key, g: int)
    requires Below(w, k, g) && g >= 0
    ensures C.ChangedAt(Eventual(w), k) <= g
  {
  }

  lemma {:induction false} ItemChange(w: State, lim: Limits, robot: string, skew: Option<int>, now: int, item: Item,
                                      k: C.Key)
    ensures var w' := ItemRecorded(w, lim, robot, skew, now, item);
            && w.samples <= w'.samples
            && (AtMostGreatest(w, k) ==> AtMostGreatest(w', k))
            && (AtLeastNewest(w, k) && C.Positive(w'.samples) ==> AtLeastNewest(w', k))
  {
    ItemMemory(w, lim, robot, skew, now, item);
    hide ItemRecorded, RowOf, SampleOf, C.Upsert, C.Note;
    if Usable(item) {
      var s, samples' := SampleOf(RowOf(lim, robot, skew, now, item)),
        ItemRecorded(w, lim, robot, skew, now, item).samples;
      assert samples'[..|samples'| - 1] == w.samples && samples'[|samples'| - 1] == s;
      C.NotedChange(w.pending, s, k);
      if s.stamp > 0 {
        C.UpsertNotedChange(C.Upsert(w.table, Unstored(w)), w.pending, s, k);
      }
    }
  }

  lemma {:induction false} ItemsChange(w: State, lim: Limits, robot: string, skew: Option<int>, now: int,
                                       batch: seq<Item>, k: C.Key)
    ensures var w' := ItemsRecorded(w, lim, robot, skew, now, batch);
            && w.samples <= w'.samples
            && (AtMostGreatest(w, k) ==> AtMostGreatest(w', k))
            && (AtLeastNewest(w, k) && C.Positive(w'.samples) ==> AtLeastNewest(w', k))
  {
    hide ItemRecorded, AtMostGreatest, AtLeastNewest;
    if batch != [] {
      var init := batch[..|batch| - 1];
      ItemsChange(w, lim, robot, skew, now, init, k);
      ItemChange(ItemsRecorded(w, lim, robot, skew, now, init), lim, robot, skew, now, batch[|batch| - 1], k);
    }
  }

  lemma {:induction false} StepAtMost(lim: Limits, w: State, e: Event, k: C.Key)
    requires AtMostGreatest(w, k)
    ensures AtMostGreatest(Step(lim, w, e), k) && w.samples <= Step(lim, w, e).samples
  {
    C.GreatestNonneg(w.samples, k);
    hide Begun, Done, Failed, ItemsRecorded, SkewNoted, L.Step;
    match e
    case RecordTopics(robot, skew, now, batch) =>
      SkewFrame(w, lim, robot, skew);
      ItemsChange(SkewNoted(w, lim, robot, skew), lim, robot, skew, now, batch, k);
    case FlushBegin(reconnects) => BegunMemory(w, reconnects);
    case StoreDone => DoneMemory(w);
    case StoreFailed => FailedMemory(w);
    case _ =>
  }

  lemma {:induction false} StepAtLeast(lim: Limits, w: State, e: Event, k: C.Key)
    requires InMemory(w) && (e.StoreFailed? ==> Harmless(w))
    requires AtLeastNewest(w, k) && C.Positive(Step(lim, w, e).samples)
    ensures AtLeastNewest(Step(lim, w, e), k)
  {
    hide Begun, Done, Failed, ItemsRecorded, SkewNoted, L.Step, Eventual, Harmless, InMemoryCounted, Merges;
    match e
    case Record(row) => OtherEventual(w, Recorded(w, row));
    case NoteEvent(row) => OtherEventual(w, EventNoted(w, row));
    case RecordTopics(robot, skew, now, batch) =>
      SkewFrame(w, lim, robot, skew);
      OtherEventual(w, SkewNoted(w, lim, robot, skew));
      ItemsChange(SkewNoted(w, lim, robot, skew), lim, robot, skew, now, batch, k);
    case FlushBegin(reconnects) => BegunEventual(w, reconnects);
    case StoreDone => DoneEventual(w);
    case StoreFailed =>
      FailedMemory(w);
      if w.stage != Idle {
        FailureIff(w);
      }
  }

  lemma {:induction false} RunAtMost(lim: Limits, w: State, events: seq<Event>, k: C.Key)
    requires AtMostGreatest(w, k)
    ensures AtMostGreatest(Run(lim, w, events), k) && w.samples <= Run(lim, w, events).samples
    decreases |events|
  {
    hide Step, AtMostGreatest;
    if events != [] {
      StepAtMost(lim, w, events[0], k);
      RunAtMost(lim, Step(lim, w, events[0]), events[1..], k);
    }
  }

  lemma {:induction false} RunAtLeast(lim: Limits, w: State, events: seq<Event>, k: C.Key)
    requires Inv(w) && InMemory(w) && AtMostGreatest(w, k) && AtLeastNewest(w, k)
    requires FailsHarmlessly(lim, w, events) && C.Positive(Run(lim, w, events).samples)
    ensures AtLeastNewest(Run(lim, w, events), k)
    decreases |events|
  {
    hide Step, Inv, InMemory, AtMostGreatest, AtLeastNewest, Harmless;
    if events != [] {
      var w' := Step(lim, w, events[0]);
      StepKeepsMemory(lim, w, events[0]);
      StepAtMost(lim, w, events[0], k);
      RunAtMost(lim, w', events[1..], k);
      assert forall i :: 0 <= i < |w'.samples| ==> w'.samples[i] == Run(lim, w, events).samples[i];
      StepAtLeast(lim, w, events[0], k);
      RunAtLeast(lim, w', events[1..], k);
    }
  }

  /** Over every run, whatever fails, the change stamp that will come to be is at most the greatest of the topic's
      changes; and at least that of its newest change if the flushes that fail do so harmlessly. */
  lemma {:induction false} LastChangedBetween(lim: Limits, telemetryMax: nat, eventsMax: nat, topicsMax: nat,
                                              ready: bool, events: seq<Event>, k: C.Key)
    ensures var w0 := Init(telemetryMax, eventsMax, topicsMax, ready);
            var w := Run(lim, w0, events);
            && C.ChangedAt(Eventual(w), k) <= C.GreatestChange(w.samples, k)
            && (FailsHarmlessly(lim, w0, events) && C.Positive(w.samples) ==>
                  C.LastChange(w.samples, k) <= C.ChangedAt(Eventual(w), k))
  {
    var w0 := Init(telemetryMax, eventsMax, topicsMax, ready);
    var w := Run(lim, w0, events);
    InitMemory(telemetryMax, eventsMax, topicsMax, ready);
    InitStamps(telemetryMax, eventsMax, topicsMax, ready, k);
    hide Run, Init, Inv, InMemory, FailsHarmlessly, Eventual, Below;
    RunAtMost(lim, w0, events, k);
    C.GreatestNonneg(w.samples, k);
    EventualBelow(w, k, C.GreatestChange(w.samples, k));
    if FailsHarmlessly(lim, w0, events) && C.Positive(w.samples) {
      RunAtLeast(lim, w0, events, k);
    }
  }

  lemma {:induction false} InitStamps(telemetryMax: nat, eventsMax: nat, topicsMax: nat, ready: bool, k: C.Key)
    ensures var w0 := Init(telemetryMax, eventsMax, topicsMax, ready);
            AtMostGreatest(w0, k) && AtLeastNewest(w0, k) && Eventual(w0) == C.Fold(w0.samples)
  {
  }

  predicate ChangesInOrder(samples: seq<C.Sample>) {
    forall i, j :: 0 <= i < j < |samples| && samples[i].key == samples[j].key &&
                   samples[i].changed && samples[j].changed ==>
                     samples[i].stamp <= samples[j].stamp
  }

  /** Over every run whose failing flushes are harmless, and with the changes of each topic in order of their
      stamps, the catalogue will come to be the fold of every accepted sample, change stamps and all; and it is that
      already once nothing is in hand or pending. */
  lemma {:induction false} CatalogueIsTheFold(lim: Limits, telemetryMax: nat, eventsMax: nat, topicsMax: nat,
                                              ready: bool, events: seq<Event>)
    requires var w0 := Init(telemetryMax, eventsMax, topicsMax, ready);
             var samples := Run(lim, w0, events).samples;
             FailsHarmlessly(lim, w0, events) && C.Positive(samples) && ChangesInOrder(samples)
    ensures var w := Run(lim, Init(telemetryMax, eventsMax, topicsMax, ready), events);
            && Eventual(w) == C.Fold(w.samples)
            && (w.stage == Idle && w.pending == map[] ==> w.table == C.Fold(w.samples))
  {
    var w0 := Init(telemetryMax, eventsMax, topicsMax, ready);
    var w := Run(lim, w0, events);
    InitMemory(telemetryMax, eventsMax, topicsMax, ready);
    RunKeepsMemory(lim, w0, events);
    InitStamps(telemetryMax, eventsMax, topicsMax, ready, ("", ""));
    HarmlessKeepsReadings(lim, w0, events);
    hide Run, Init, Inv, FailsHarmlessly, FailsKeepingReadings, C.Fold, InMemoryCounted, Merges;
    CatalogueIsOneFold(lim, w0, events);
    forall k | k in Eventual(w) ensures Eventual(w)[k] == C.Fold(w.samples)[k] {
      hide Eventual;
      LastChangedBetween(lim, telemetryMax, eventsMax, topicsMax, ready, events, k);
      C.NondecreasingStampsSuffice(w.samples, k);
      C.FoldChangedAt(w.samples, k);
    }
    if w.stage == Idle && w.pending == map[] {
      C.UpsertNothing(w.table);
    }
  }
}
