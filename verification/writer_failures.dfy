/** Three short runs of the writer in which a failing flush does harm. */
module WriterFailures {
  import opened Clock
  import opened Options
  import opened Writer
  import opened WriterCatalogue
  import C = Catalogue
  import L = StreamLedger

  const LIM := Limits(2000, 1000, 1000)
  const KEY: C.Key := ("r", "t")
  const ROW := TopicRow("r", 10, 10, None, "t", "v", 0)
  const SAMPLE := Event.RecordTopics("r", None, 10, [Item("t", None, "v", 0)])

  /** One sample and one event; the flush stores topics and catalogue and fails on the events; the next one
      stores the topics again. */
  const LATE: seq<Event> :=
    [SAMPLE, Event.NoteEvent(EventRow("r", "k", "")), FlushBegin(true), StoreDone, StoreDone, StoreFailed,
     FlushBegin(true), StoreDone]

  /** One sample; while its flush stores the topics another one arrives; then the flush fails. */
  const OVERLAP: seq<Event> := [SAMPLE, FlushBegin(true), SAMPLE, StoreFailed]

  const UNCHANGED := Item("t", Some(10), "v", 1)
  const CHANGED := Item("t", Some(12), "x", 0)

  /** Two samples are in hand when the flush fails on its events, and two others, one of them a change, have come
      in meanwhile: counts and last reading are the same. */
  const HIDDEN: seq<Event> :=
    [Event.RecordTopics("r", None, 11, [UNCHANGED, UNCHANGED]), Event.NoteEvent(EventRow("r", "k", "")),
     FlushBegin(true), StoreDone, StoreDone, Event.RecordTopics("r", None, 11, [CHANGED, UNCHANGED]), StoreFailed]

  function After(es: seq<Event>, k: nat): State
    requires k <= |es|
  {
    Run(LIM, Init(9, 9, 9, true), es[..k])
  }

  lemma {:induction false} OneMore(es: seq<Event>, k: nat)
    requires k < |es|
    ensures After(es, k + 1) == Step(LIM, After(es, k), es[k])
  {
    var w0 := Init(9, 9, 9, true);
    assert es[..k + 1] == es[..k] + [es[k]];
    RunSplit(LIM, w0, es[..k], [es[k]]);
    hide Step;
    assert [es[k]][1..] == [];
    assert Run(LIM, After(es, k), [es[k]]) == Step(LIM, After(es, k), es[k]);
  }

  /** What recording the sample does to a writer with room for it. */
  lemma {:induction false} SampleRecorded(w: State)
    requires |w.topics.queue| < w.topics.max
    ensures var w' := Step(LIM, w, SAMPLE);
            && w' == w.(topics := w'.topics, pending := w'.pending, samples := w'.samples)
            && w'.topics == w.topics.(queue := w.topics.queue + [ROW], accepted := w.topics.accepted + [ROW])
            && KEY in w'.pending
            && w'.pending[KEY].samples == (if KEY in w.pending then w.pending[KEY].samples else 0) + 1
            && w'.samples == w.samples + [C.Sample(KEY, 10, "v", true)]
  {
    var item := Item("t", None, "v", 0);
    assert SkewNoted(w, LIM, "r", None) == w;
    assert [item][..0] == [];
    assert ItemsRecorded(w, LIM, "r", None, 10, [item]) == ItemRecorded(w, LIM, "r", None, 10, item);
  }

  lemma {:induction false} FlushOfTopics(w: State)
    requires w.stage == Idle && w.telemetry.queue == [] && w.telemetry.flight == [] && !w.telemetry.committed
    requires w.topics.queue != [] && w.topics.flight == [] && !w.topics.committed
    requires w.events.flight == [] && !w.events.committed
    ensures var w' := Step(LIM, w, FlushBegin(true));
            && w'.stage == Topics && w'.flight == w.pending && w'.pending == map[] && w'.table == w.table
            && w'.topics == w.topics.(queue := [], flight := w.topics.queue)
            && w'.events == w.events.(queue := [], flight := w.events.queue)
            && w'.samples == w.samples && w'.telemetry == w.telemetry
  {
  }

  /** Storing a batch that does not come last in its flush. */
  lemma {:induction false} TopicsStored(w: State)
    requires w.stage == Topics && !w.topics.committed && w.flight != map[]
    ensures Step(LIM, w, StoreDone) ==
              w.(topics := w.topics.(stored := w.topics.stored + w.topics.flight, committed := true), stage := Catalog)
  {
  }

  lemma {:induction false} CatalogueStored(w: State)
    requires w.stage == Catalog && w.events.flight != []
    ensures Step(LIM, w, StoreDone) == w.(table := C.Upsert(w.table, w.flight), stage := Events)
  {
  }

  /** The flush fails on the events, with topics and catalogue already stored. */
  lemma {:induction false} LateUntilFailure()
    ensures var w := After(LATE, 5);
            && w.stage == Events && w.topics.stored == w.topics.flight == w.topics.accepted == [ROW]
            && w.topics.committed && w.topics.queue == [] && w.topics.max == 9
            && w.telemetry.queue == [] && w.telemetry.flight == [] && !w.telemetry.committed
            && w.events.flight != [] && !w.events.committed
            && KEY in w.flight && w.flight[KEY].samples == 1 && w.pending == map[]
            && KEY in w.table && w.table[KEY].samples == 1
            && w.samples == [C.Sample(KEY, 10, "v", true)]
  {
    hide Step, Run;
    OneMore(LATE, 0); OneMore(LATE, 1); OneMore(LATE, 2); OneMore(LATE, 3); OneMore(LATE, 4);
    NothingYet(LATE);
    SampleRecorded(After(LATE, 0));
    EventKept(After(LATE, 1));
    FlushOfTopics(After(LATE, 2));
    TopicsStored(After(LATE, 3));
    CatalogueStored(After(LATE, 4));
  }

  lemma {:induction false} NothingYet(es: seq<Event>)
    ensures After(es, 0) == Init(9, 9, 9, true)
  {
    assert es[..0] == [];
  }

  lemma {:induction false} EventKept(w: State)
    requires |w.events.queue| < w.events.max
    ensures var row := EventRow("r", "k", "");
            Step(LIM, w, Event.NoteEvent(row)) ==
              w.(events := w.events.(queue := w.events.queue + [row], accepted := w.events.accepted + [row]))
  {
  }

  lemma {:induction false} FailedAtEvents(w: State)
    requires w.stage == Events && w.topics.flight == [ROW] && w.topics.queue == [] && w.topics.max == 9
    requires w.telemetry.queue == [] && w.telemetry.flight == []
    ensures var w' := Step(LIM, w, StoreFailed);
            && w'.stage == Idle && w'.topics.queue == [ROW] && w'.topics.flight == [] && !w'.topics.committed
            && w'.topics.stored == w.topics.stored && w'.topics.accepted == w.topics.accepted
            && w'.telemetry.queue == [] && w'.telemetry.flight == [] && !w'.telemetry.committed
            && w'.events.flight == [] && !w'.events.committed
            && w'.pending == w.pending + w.flight && w'.flight == map[] && w'.table == w.table
            && w'.samples == w.samples
  {
    L.PutBackCutsNewest(w.topics);
    L.PutBackCutsNewest(w.telemetry);
    var l, t := L.Step(w.topics, L.PutBack), L.Step(w.telemetry, L.PutBack);
    assert l.queue + l.cut[|w.topics.cut|..] == [ROW] && t.queue + t.cut[|w.telemetry.cut|..] == [];
    assert |l.queue| == 1 && l.queue[0] == (l.queue + l.cut[|w.topics.cut|..])[0];
  }

  /** A flush that fails on its events archives its topic row twice, and its catalogue counts one sample twice. */
  lemma {:induction false} LateFailureArchivesTwice()
    ensures After(LATE, 8).topics.accepted == [ROW] && After(LATE, 8).topics.stored == [ROW, ROW]
    ensures CountedAgain(After(LATE, 5), LATE[5], KEY) == 1
    ensures Held(After(LATE, 6), KEY) == 2 && |After(LATE, 6).samples| == 1
  {
    hide Step, Run, Init;
    LateUntilFailure();
    OneMore(LATE, 5); OneMore(LATE, 6); OneMore(LATE, 7);
    FailedAtEvents(After(LATE, 5));
    FlushOfTopics(After(LATE, 6));
    TopicsStored(After(LATE, 7));
  }

  /** A sample that arrives while the topics are stored is forgotten when that fails. */
  lemma {:induction false} FailureForgetsSample()
    ensures Overwritten(After(OVERLAP, 3), OVERLAP[3], KEY) == 1
    ensures Held(After(OVERLAP, 4), KEY) == 1 && |After(OVERLAP, 4).samples| == 2
  {
    hide Step, Run;
    NothingYet(OVERLAP);
    OneMore(OVERLAP, 0); OneMore(OVERLAP, 1); OneMore(OVERLAP, 2); OneMore(OVERLAP, 3);
    SampleRecorded(After(OVERLAP, 0));
    FlushOfTopics(After(OVERLAP, 1));
    SampleRecorded(After(OVERLAP, 2));
    FailureForgets(After(OVERLAP, 3));
  }

  lemma {:induction false} FailureForgets(w: State)
    requires w.stage != Idle
    ensures var w' := Step(LIM, w, StoreFailed);
            && w'.pending == w.pending + w.flight && w'.flight == map[] && w'.table == w.table
            && w'.samples == w.samples
            && w'.stage == Idle
  {
    hide L.Step;
  }

  lemma {:induction false} PairRecorded(w: State, a: Item, b: Item)
    requires Usable(a) && Usable(b) && |w.topics.queue| + 2 <= w.topics.max
    ensures var w' := Step(LIM, w, Event.RecordTopics("r", None, 11, [a, b]));
            var x, y := SampleOf(RowOf(LIM, "r", None, 11, a)), SampleOf(RowOf(LIM, "r", None, 11, b));
            && w' == w.(topics := w'.topics, pending := w'.pending, samples := w'.samples, clamped := w'.clamped)
            && w'.topics.queue != [] && w'.topics.max == w.topics.max && w'.topics.flight == w.topics.flight
            && w'.topics.committed == w.topics.committed
            && w'.pending == C.Note(C.Note(w.pending, x), y) && w'.samples == w.samples + [x, y]
  {
    hide RowOf, SampleOf, Clamped, C.Note;
    assert SkewNoted(w, LIM, "r", None) == w;
    assert [a, b][..1] == [a] && [a][..0] == [];
    var v := ItemRecorded(w, LIM, "r", None, 11, a);
    assert ItemsRecorded(w, LIM, "r", None, 11, []) == w;
    assert ItemsRecorded(w, LIM, "r", None, 11, [a]) == v;
    assert ItemsRecorded(w, LIM, "r", None, 11, [a, b]) == ItemRecorded(v, LIM, "r", None, 11, b);
  }

  lemma {:induction false} Samples()
    ensures SampleOf(RowOf(LIM, "r", None, 11, UNCHANGED)) == C.Sample(KEY, 10, "v", false)
    ensures SampleOf(RowOf(LIM, "r", None, 11, CHANGED)) == C.Sample(KEY, 12, "x", true)
  {
  }

  lemma {:induction false} HiddenUntilFailure()
    ensures var w := After(HIDDEN, 6);
            && w.stage == Events && w.pending == map[KEY := C.Entry(2, "v", 10, 12)]
            && w.flight == map[KEY := C.Entry(2, "v", 10, 0)] && w.table == w.flight
            && |w.samples| == 4
  {
    hide Step, Run, RowOf, SampleOf;
    Samples();
    OneMore(HIDDEN, 0); OneMore(HIDDEN, 1); OneMore(HIDDEN, 2);
    OneMore(HIDDEN, 3); OneMore(HIDDEN, 4); OneMore(HIDDEN, 5);
    NothingYet(HIDDEN);
    PairRecorded(After(HIDDEN, 0), UNCHANGED, UNCHANGED);
    EventKept(After(HIDDEN, 1));
    FlushOfTopics(After(HIDDEN, 2));
    TopicsStored(After(HIDDEN, 3));
    CatalogueStored(After(HIDDEN, 4));
    C.UpsertNothing(After(HIDDEN, 4).flight);
    PairRecorded(After(HIDDEN, 5), CHANGED, UNCHANGED);
  }

  /** The failure overwrites two samples and counts two again, so that counts and readings come out right; but the
      stamp of the one change is lost. */
  lemma {:induction false} FailureHidesChange()
    ensures var w := After(HIDDEN, 6);
            && KeepsReadings(w) && !Harmless(w)
            && Overwritten(w, HIDDEN[6], KEY) == 2 && CountedAgain(w, HIDDEN[6], KEY) == 2
            && C.ChangedAt(Eventual(w), KEY) == 12 && C.ChangedAt(Eventual(After(HIDDEN, 7)), KEY) == 0
            && C.Agree(Eventual(w), Eventual(After(HIDDEN, 7)))
  {
    hide Step, Run;
    HiddenUntilFailure();
    OneMore(HIDDEN, 6);
    FailureForgets(After(HIDDEN, 6));
    var w, w' := After(HIDDEN, 6), After(HIDDEN, 7);
    assert w'.pending == w.flight;
    C.UpsertNothing(w.table);
    assert Eventual(w) == C.Upsert(w.table, w.pending) && Eventual(w') == C.Upsert(w.table, w.flight);
    assert !NoNewerChange(w.table, w.pending, KEY);
  }
}
