/** What the writer's counters and skew notes say about a run, told from the events alone. */
module WriterCounters {
  import opened Clock
  import opened Deques
  import opened Options
  import opened Writer
  import C = Catalogue
  import E = EndToEnd
  import L = StreamLedger

  // ---------------------------------------------------------------- elements

  function Unusable(batch: seq<Item>): nat {
    if batch == [] then 0
    else
      var last := batch[|batch| - 1];
      Unusable(batch[..|batch| - 1]) + (if last.Malformed? || last.topic == "" then 1 else 0)
  }

  function UnusableIn(events: seq<Event>): nat {
    if events == [] then 0
    else
      UnusableIn(events[..|events| - 1])
      + match events[|events| - 1]
        case RecordTopics(_, _, _, batch) => Unusable(batch)
        case _ => 0
  }

  /** The element's time, less a skew that is corrected, lies outside the window around the receipt; an element without
      a time is taken to be as old as the receipt before that. */
  predicate OutOfWindow(lim: Limits, skew: Option<int>, recv: int, item: Item)
    requires item.Item?
  {
    var raw := if item.ts.Some? && item.ts.value != 0 then item.ts.value else recv;
    var age := recv - (if skew.Some? && (skew.value >= lim.correctFrom || -skew.value >= lim.correctFrom)
                       then raw - skew.value else raw);
    age > lim.maxBackfill || -age > lim.maxFuture
  }

  function Outside(lim: Limits, skew: Option<int>, recv: int, batch: seq<Item>): nat {
    if batch == [] then 0
    else
      var last := batch[|batch| - 1];
      Outside(lim, skew, recv, batch[..|batch| - 1])
      + (if last.Item? && last.topic != "" && OutOfWindow(lim, skew, recv, last) then 1 else 0)
  }

  function OutsideIn(lim: Limits, events: seq<Event>): nat {
    if events == [] then 0
    else
      OutsideIn(lim, events[..|events| - 1])
      + match events[|events| - 1]
        case RecordTopics(_, skew, recv, batch) => Outside(lim, skew, recv, batch)
        case _ => 0
  }

  // ---------------------------------------------------------------- skews

  predicate FarOff(lim: Limits, e: Event, robot: string) {
    && e.RecordTopics? && e.robot == robot && e.skew.Some?
    && (e.skew.value >= lim.correctFrom || -e.skew.value >= lim.correctFrom)
  }

  predicate EverFarOff(lim: Limits, events: seq<Event>, robot: string) {
    exists i :: 0 <= i < |events| && FarOff(lim, events[i], robot)
  }

  /** The event rows of a run: those noted, and one for a robot's first batch that is far off. */
  function EventRows(lim: Limits, events: seq<Event>): seq<EventRow> {
    if events == [] then []
    else
      var most, e := events[..|events| - 1], events[|events| - 1];
      EventRows(lim, most)
      + match e
        case NoteEvent(row) => [row]
        case RecordTopics(robot, _, _, _) =>
          if FarOff(lim, e, robot) && !EverFarOff(lim, most, robot) then [EventRow(robot, "clock", "")] else []
        case _ => []
  }

  /** A robot's skew as last measured far off. */
  function LastFarOff(lim: Limits, events: seq<Event>, robot: string): Option<int> {
    if events == [] then None
    else if FarOff(lim, events[|events| - 1], robot) then events[|events| - 1].skew
    else LastFarOff(lim, events[..|events| - 1], robot)
  }

  // ---------------------------------------------------------------- one step

  lemma {:induction false} BatchCounts(w: State, lim: Limits, robot: string, skew: Option<int>, now: int,
                                       batch: seq<Item>)
    ensures var w' := ItemsRecorded(w, lim, robot, skew, now, batch);
            && w'.malformed == w.malformed + Unusable(batch)
            && w'.clamped == w.clamped + Outside(lim, skew, now, batch)
            && |w'.topics.accepted| + w'.malformed == |w.topics.accepted| + w.malformed + |batch|
            && w'.events == w.events && w'.skewWarned == w.skewWarned && w'.skews == w.skews
            && w'.failures == w.failures
  {
    hide RowOf, SampleOf, C.Note, Append;
    if batch != [] {
      BatchCounts(w, lim, robot, skew, now, batch[..|batch| - 1]);
    }
  }

  /** What no flush changes. */
  predicate SameCounts(w: State, w': State) {
    && w'.malformed == w.malformed && w'.clamped == w.clamped && w'.samples == w.samples
    && w'.skewWarned == w.skewWarned && w'.skews == w.skews
    && w'.events.accepted == w.events.accepted && w'.topics.accepted == w.topics.accepted
  }

  lemma {:induction false} AdvancedCounts(w: State, s: Stage)
    ensures SameCounts(w, Advanced(w, s)) && Advanced(w, s).failures == w.failures
  {
    hide NextStage;
  }

  lemma {:induction false} StoreCounts<T>(s: L.Stream<T>, n: nat)
    ensures L.Step(s, L.Store).accepted == s.accepted && L.Step(s, L.Take(n)).accepted == s.accepted
    ensures L.Step(s, L.PutBack).accepted == s.accepted && L.Step(s, L.Finish).accepted == s.accepted
  {
  }

  lemma {:induction false} DoneCounts(w: State)
    ensures SameCounts(w, Done(w))
  {
    hide Advanced, C.Upsert, L.Step, SameCounts;
    SameCountsAfterStore(w);
    AdvancedCounts(w.(telemetry := L.Step(w.telemetry, L.Store)), Topics);
    AdvancedCounts(w.(topics := L.Step(w.topics, L.Store)), Catalog);
    AdvancedCounts(w.(table := C.Upsert(w.table, w.flight)), Events);
    AdvancedCounts(w.(events := L.Step(w.events, L.Store)), Touch);
  }

  lemma {:induction false} SameCountsAfterStore(w: State)
    ensures forall w' :: SameCounts(w.(telemetry := L.Step(w.telemetry, L.Store)), w') ==> SameCounts(w, w')
    ensures forall w' :: SameCounts(w.(topics := L.Step(w.topics, L.Store)), w') ==> SameCounts(w, w')
    ensures forall w' :: SameCounts(w.(events := L.Step(w.events, L.Store)), w') ==> SameCounts(w, w')
    ensures forall w' :: SameCounts(w.(table := C.Upsert(w.table, w.flight)), w') ==> SameCounts(w, w')
    ensures SameCounts(w, w) && SameCounts(w, Settled(w.(seenIds := {})))
  {
    hide C.Upsert;
  }

  lemma {:induction false} FlushCounts(lim: Limits, w: State, e: Event)
    requires e.FlushBegin? || e.StoreDone? || e.StoreFailed?
    ensures SameCounts(w, Step(lim, w, e))
  {
    hide Advanced, L.Step;
    StoreCounts(w.topics, |w.topics.queue|);
    StoreCounts(w.events, |w.events.queue|);
    match e
    case FlushBegin(_) => AdvancedCounts(Taken(w), Telemetry);
    case StoreDone => DoneCounts(w);
    case StoreFailed =>
  }

  // ---------------------------------------------------------------- runs

  function Elements(events: seq<Event>): nat {
    if events == [] then 0
    else
      Elements(events[..|events| - 1])
      + match events[|events| - 1]
        case RecordTopics(_, _, _, batch) => |batch|
        case _ => 0
  }

  lemma {:induction false} SkewCounts(w: State, lim: Limits, robot: string, skew: Option<int>)
    ensures var w' := SkewNoted(w, lim, robot, skew);
            && w'.malformed == w.malformed && w'.clamped == w.clamped && w'.topics == w.topics
            && w'.failures == w.failures
  {
    hide L.Step;
  }

  lemma {:induction false} StepCounts(lim: Limits, w: State, init: seq<Event>, e: Event)
    ensures var w', events := Step(lim, w, e), init + [e];
            && w'.malformed - w.malformed == UnusableIn(events) - UnusableIn(init)
            && w'.clamped - w.clamped == OutsideIn(lim, events) - OutsideIn(lim, init)
            && |w'.topics.accepted| + w'.malformed - (|w.topics.accepted| + w.malformed)
               == Elements(events) - Elements(init)
  {
    assert (init + [e])[..|init|] == init;
    hide Begun, Done, Failed, ItemsRecorded, SkewNoted, Unusable, Outside;
    match e
    case RecordTopics(robot, skew, now, batch) =>
      SkewCounts(w, lim, robot, skew);
      BatchCounts(SkewNoted(w, lim, robot, skew), lim, robot, skew, now, batch);
    case Record(_) =>
    case NoteEvent(_) =>
    case _ => FlushCounts(lim, w, e);
  }

  /** Over every run each element of a relayed batch is either accepted as a row or counted as malformed, the malformed
      ones are those without a usable topic, and the clamped ones those whose time lies outside the window. */
  lemma {:induction false} EveryElementIsCounted(lim: Limits, w: State, events: seq<Event>)
    ensures var w' := Run(lim, w, events);
            && w'.malformed == w.malformed + UnusableIn(events)
            && w'.clamped == w.clamped + OutsideIn(lim, events)
            && |w'.topics.accepted| + w'.malformed == |w.topics.accepted| + w.malformed + Elements(events)
    decreases |events|
  {
    hide Step, Run, UnusableIn, OutsideIn, Elements;
    if events == [] {
      NothingCounted(lim, w);
    } else {
      var init, e := events[..|events| - 1], events[|events| - 1];
      EveryElementIsCounted(lim, w, init);
      assert events == init + [e];
      RunSplit(lim, w, init, [e]);
      E.RunOne(lim, Run(lim, w, init), e);
      StepCounts(lim, Run(lim, w, init), init, e);
    }
  }

  lemma {:induction false} NothingCounted(lim: Limits, w: State)
    ensures Run(lim, w, []) == w
    ensures UnusableIn([]) == 0 && OutsideIn(lim, []) == 0 && Elements([]) == 0
  {
  }

  // ---------------------------------------------------------------- rows and samples

  /** What the catalogue is told of a row: its topic and stamp, at most 200 characters of its value, and whether the
      value changed. */
  predicate TellsRow(s: C.Sample, row: TopicRow) {
    && s.key == (row.robot, row.topic) && s.stamp == row.ts
    && s.text <= row.value && |s.text| == Min(|row.value|, 200)
    && (s.changed <==> row.flag == 0)
  }

  predicate SamplesTell(w: State) {
    && |w.samples| == |w.topics.accepted|
    && forall i :: 0 <= i < |w.samples| ==> TellsRow(w.samples[i], w.topics.accepted[i])
  }

  lemma {:induction false} BatchTells(w: State, lim: Limits, robot: string, skew: Option<int>, now: int,
                                      batch: seq<Item>)
    requires SamplesTell(w)
    ensures SamplesTell(ItemsRecorded(w, lim, robot, skew, now, batch))
  {
    hide RowOf, Clamped, C.Note, Append;
    if batch != [] {
      BatchTells(w, lim, robot, skew, now, batch[..|batch| - 1]);
    }
  }

  lemma {:induction false} StepSamplesTell(lim: Limits, w: State, e: Event)
    requires SamplesTell(w)
    ensures SamplesTell(Step(lim, w, e))
  {
    hide ItemsRecorded, TellsRow, Done, Begun, Append, Failed, Advanced;
    match e
    case RecordTopics(robot, skew, now, batch) =>
      BatchTells(SkewNoted(w, lim, robot, skew), lim, robot, skew, now, batch);
    case Record(_) =>
    case NoteEvent(_) =>
    case _ => FlushCounts(lim, w, e);
  }

  /** Over every run the catalogue is told of exactly the rows accepted, in order. */
  lemma {:induction false} RunSamplesTell(lim: Limits, w: State, events: seq<Event>)
    requires SamplesTell(w)
    ensures SamplesTell(Run(lim, w, events))
    decreases |events|
  {
    hide Step, SamplesTell;
    if events != [] {
      StepSamplesTell(lim, w, events[0]);
      RunSamplesTell(lim, Step(lim, w, events[0]), events[1..]);
    }
  }

  // ---------------------------------------------------------------- clocks far off

  /** What the writer remembers of far-off clocks is what the events say. */
  ghost predicate Told(lim: Limits, events: seq<Event>, w: State) {
    && w.events.accepted == EventRows(lim, events)
    && (forall robot :: robot in w.skewWarned <==> EverFarOff(lim, events, robot))
    && (forall robot :: robot in w.skews <==> LastFarOff(lim, events, robot).Some?)
    && (forall robot :: robot in w.skews ==> LastFarOff(lim, events, robot) == Some(w.skews[robot]))
  }

  lemma {:induction false} EverFarOffSnoc(lim: Limits, init: seq<Event>, e: Event, robot: string)
    ensures EverFarOff(lim, init + [e], robot) <==> EverFarOff(lim, init, robot) || FarOff(lim, e, robot)
    ensures LastFarOff(lim, init + [e], robot) == if FarOff(lim, e, robot) then e.skew else LastFarOff(lim, init, robot)
  {
    var all := init + [e];
    assert all[..|init|] == init && all[|init|] == e;
    hide FarOff, LastFarOff;
    if EverFarOff(lim, init, robot) {
      var i :| 0 <= i < |init| && FarOff(lim, init[i], robot);
      assert FarOff(lim, all[i], robot);
    }
  }

  lemma {:induction false} SkewIsTold(lim: Limits, w: State, robot: string, skew: Option<int>)
    ensures var w', far := SkewNoted(w, lim, robot, skew),
                           skew.Some? && (skew.value >= lim.correctFrom || -skew.value >= lim.correctFrom);
            && w'.events.accepted
               == w.events.accepted + (if far && robot !in w.skewWarned then [EventRow(robot, "clock", "")] else [])
            && w'.skewWarned == w.skewWarned + (if far then {robot} else {})
            && w'.skews == if far then w.skews[robot := skew.value] else w.skews
  {
    AcceptedSnoc(w.events, EventRow(robot, "clock", ""));
    hide L.Step;
  }

  lemma {:induction false} AcceptedSnoc<T>(s: L.Stream<T>, row: T)
    ensures L.Step(s, L.Accept(row)).accepted == s.accepted + [row]
  {
  }

  /** The clock of the batch's robot is far off. */
  predicate Far(lim: Limits, e: Event) {
    e.RecordTopics? && FarOff(lim, e, e.robot)
  }

  lemma {:induction false} StepSkews(lim: Limits, w: State, e: Event)
    ensures var w' := Step(lim, w, e);
            && w'.events.accepted == w.events.accepted
                 + (if e.NoteEvent? then [e.event]
                    else if Far(lim, e) && e.robot !in w.skewWarned then [EventRow(e.robot, "clock", "")]
                    else [])
            && w'.skewWarned == w.skewWarned + (if Far(lim, e) then {e.robot} else {})
            && w'.skews == if Far(lim, e) then w.skews[e.robot := e.skew.value] else w.skews
  {
    hide Begun, Done, Failed, ItemsRecorded, SkewNoted, Append;
    match e
    case RecordTopics(robot, skew, now, batch) =>
      SkewIsTold(lim, w, robot, skew);
      BatchCounts(SkewNoted(w, lim, robot, skew), lim, robot, skew, now, batch);
    case Record(_) =>
    case NoteEvent(_) =>
    case _ => FlushCounts(lim, w, e);
  }

  lemma {:induction false} StepTells(lim: Limits, w: State, init: seq<Event>, e: Event)
    requires Told(lim, init, w)
    ensures Told(lim, init + [e], Step(lim, w, e))
  {
    var events := init + [e];
    assert events[..|init|] == init && events[|init|] == e;
    StepSkews(lim, w, e);
    forall robot
      ensures EverFarOff(lim, events, robot) <==> EverFarOff(lim, init, robot) || FarOff(lim, e, robot)
      ensures LastFarOff(lim, events, robot) == if FarOff(lim, e, robot) then e.skew else LastFarOff(lim, init, robot)
      ensures FarOff(lim, e, robot) <==> Far(lim, e) && e.robot == robot
    {
      EverFarOffSnoc(lim, init, e, robot);
    }
    hide Step, EverFarOff, LastFarOff, Far;
    assert EventRows(lim, events) == EventRows(lim, init)
      + (if e.NoteEvent? then [e.event]
         else if Far(lim, e) && !EverFarOff(lim, init, e.robot) then [EventRow(e.robot, "clock", "")]
         else []);
  }

  lemma {:induction false} RunTells(lim: Limits, w0: State, events: seq<Event>)
    requires Told(lim, [], w0)
    ensures Told(lim, events, Run(lim, w0, events))
    decreases |events|
  {
    hide Step, Run, Told;
    if events == [] {
      E.RunNone(lim, w0);
    } else {
      var init, e := events[..|events| - 1], events[|events| - 1];
      RunTells(lim, w0, init);
      assert events == init + [e];
      RunSplit(lim, w0, init, [e]);
      E.RunOne(lim, Run(lim, w0, init), e);
      StepTells(lim, Run(lim, w0, init), init, e);
    }
  }

  /** Over every run the event stream has accepted the events noted and, for each robot, one clock event at its first
      batch from a clock far off; the skew remembered of a robot is its last such one. */
  lemma {:induction false} FarOffIsNotedOnce(lim: Limits, telemetryMax: nat, eventsMax: nat, topicsMax: nat,
                                             ready: bool, events: seq<Event>)
    ensures Told(lim, events, Run(lim, Init(telemetryMax, eventsMax, topicsMax, ready), events))
  {
    RunTells(lim, Init(telemetryMax, eventsMax, topicsMax, ready), events);
  }

  // ---------------------------------------------------------------- robots heard of

  /** A row of the robot was recorded, and no committed update of the robots' last contact came after it. */
  predicate HeardSince(lim: Limits, w0: State, events: seq<Event>, robot: string) {
    if events == [] then robot in w0.seenIds
    else
      var most, e := events[..|events| - 1], events[|events| - 1];
      if e.Record? && e.row.robot == robot then true
      else if e.StoreDone? && Run(lim, w0, most).stage == Touch then false
      else HeardSince(lim, w0, most, robot)
  }

  /** The robots whose last contact the store call of the stage `Touch` is given when that stage begins. */
  function Named(lim: Limits, w0: State, events: seq<Event>): set<string> {
    if events == [] then {}
    else
      var most := events[..|events| - 1];
      if Run(lim, w0, events).stage == Touch && Run(lim, w0, most).stage != Touch then Run(lim, w0, events).seenIds
      else Named(lim, w0, most)
  }

  /** The robots recorded since that stage began. */
  function RecordedMeanwhile(lim: Limits, w0: State, events: seq<Event>): set<string> {
    if events == [] then {}
    else
      var most, e := events[..|events| - 1], events[|events| - 1];
      if Run(lim, w0, events).stage == Touch && Run(lim, w0, most).stage != Touch then {}
      else RecordedMeanwhile(lim, w0, most) + (if e.Record? then {e.row.robot} else {})
  }

  lemma {:induction false} ItemsHearNothing(w: State, lim: Limits, robot: string, skew: Option<int>, now: int,
                                            batch: seq<Item>)
    ensures var w' := ItemsRecorded(w, lim, robot, skew, now, batch); w'.seenIds == w.seenIds && w'.stage == w.stage
  {
    hide RowOf, SampleOf, Clamped, C.Note, L.Step;
    if batch != [] {
      ItemsHearNothing(w, lim, robot, skew, now, batch[..|batch| - 1]);
    }
  }

  /** What one event does to the robots heard of. */
  lemma {:induction false} StepHears(lim: Limits, w: State, e: Event)
    ensures Step(lim, w, e).seenIds ==
              if e.Record? then w.seenIds + {e.row.robot}
              else if e.StoreDone? && w.stage == Touch then {}
              else w.seenIds
    ensures w.stage == Touch && Step(lim, w, e).stage == Touch ==> !e.StoreDone? && !e.StoreFailed?
  {
    hide ItemsRecorded, L.Step, NextStage, C.Upsert;
    if e.RecordTopics? {
      ItemsHearNothing(SkewNoted(w, lim, e.robot, e.skew), lim, e.robot, e.skew, e.now, e.batch);
    }
  }

  lemma {:induction false} RunSnoc(lim: Limits, w0: State, events: seq<Event>)
    requires events != []
    ensures Run(lim, w0, events) == Step(lim, Run(lim, w0, events[..|events| - 1]), events[|events| - 1])
  {
    hide Step;
    var most, e := events[..|events| - 1], events[|events| - 1];
    assert events == most + [e];
    RunSplit(lim, w0, most, [e]);
    E.RunOne(lim, Run(lim, w0, most), e);
  }

  /** Over every run a robot is remembered as heard of exactly if a row of it was recorded and no committed update of
      the robots' last contact came after it. */
  lemma {:induction false} HeardOfIff(lim: Limits, w0: State, events: seq<Event>, robot: string)
    ensures robot in Run(lim, w0, events).seenIds <==> HeardSince(lim, w0, events, robot)
  {
    hide Run, Step;
    if events == [] {
      E.RunNone(lim, w0);
    } else {
      var most := events[..|events| - 1];
      HeardOfIff(lim, w0, most, robot);
      RunSnoc(lim, w0, events);
      StepHears(lim, Run(lim, w0, most), events[|events| - 1]);
    }
  }

  lemma {:induction false} SeenDuringTouch(lim: Limits, w0: State, events: seq<Event>)
    requires w0.stage != Touch && Run(lim, w0, events).stage == Touch
    ensures Run(lim, w0, events).seenIds == Named(lim, w0, events) + RecordedMeanwhile(lim, w0, events)
  {
    hide Run, Step;
    if events == [] {
      E.RunNone(lim, w0);
    } else {
      var most := events[..|events| - 1];
      RunSnoc(lim, w0, events);
      StepHears(lim, Run(lim, w0, most), events[|events| - 1]);
      if Run(lim, w0, most).stage == Touch {
        SeenDuringTouch(lim, w0, most);
      }
    }
  }

  /** Over every run: when the update of the robots' last contact commits, a robot is forgotten without having been in
      the update exactly if it was recorded while the update was under way and had not been heard of when it began. */
  lemma {:induction false} TouchForgetsIff(lim: Limits, telemetryMax: nat, eventsMax: nat, topicsMax: nat, ready: bool,
                                           events: seq<Event>, robot: string)
    requires Run(lim, Init(telemetryMax, eventsMax, topicsMax, ready), events).stage == Touch
    ensures var w0 := Init(telemetryMax, eventsMax, topicsMax, ready);
            var w := Run(lim, w0, events);
            && Step(lim, w, StoreDone).seenIds == {}
            && (robot in w.seenIds && robot !in Named(lim, w0, events)
                <==> robot in RecordedMeanwhile(lim, w0, events) && robot !in Named(lim, w0, events))
  {
    var w0 := Init(telemetryMax, eventsMax, topicsMax, ready);
    SeenDuringTouch(lim, w0, events);
    hide Run;
    StepHears(lim, Run(lim, w0, events), StoreDone);
  }

  /** It can happen: "b" is recorded while the contact of "a" is stored. */
  lemma {:induction false} TouchForgets(lim: Limits)
    ensures var w0 := Init(9, 9, 9, true);
            var begun := [Record(TelemetryRow("a", 1, "")), FlushBegin(false), StoreDone];
            var events := begun + [Record(TelemetryRow("b", 2, ""))];
            && Run(lim, w0, events).stage == Touch && Run(lim, w0, begun).seenIds == {"a"}
            && Run(lim, w0, begun).stage == Touch && Run(lim, w0, events + [StoreDone]).seenIds == {}
  {
    var w0 := Init(9, 9, 9, true);
    var a, b := TelemetryRow("a", 1, ""), TelemetryRow("b", 2, "");
    var w1 := Step(lim, w0, Record(a));
    var w2 := Step(lim, w1, FlushBegin(false));
    var w3 := Step(lim, w2, StoreDone);
    var w4 := Step(lim, w3, Record(b));
    var begun := [Record(a), FlushBegin(false), StoreDone];
    var events := begun + [Record(b)];
    assert w1.telemetry.queue == [a] && w1.seenIds == {"a"};
    NextStageIs(Taken(w1), Telemetry);
    assert w2.stage == Telemetry;
    NextStageIs(w2.(telemetry := L.Step(w2.telemetry, L.Store)), Topics);
    assert w3.stage == Touch && w3.seenIds == {"a"} && w4.stage == w3.stage;
    hide Step, Run, NextStage;
    RunOne4(lim, w0, Record(a), FlushBegin(false), StoreDone, Record(b));
    StepHears(lim, w4, StoreDone);
    assert events == [Record(a), FlushBegin(false), StoreDone, Record(b)];
    RunSplit(lim, w0, events, [StoreDone]);
    E.RunOne(lim, w4, StoreDone);
  }

  lemma {:induction false} RunOne4(lim: Limits, w: State, a: Event, b: Event, c: Event, d: Event)
    ensures Run(lim, w, [a, b, c]) == Step(lim, Step(lim, Step(lim, w, a), b), c)
    ensures Run(lim, w, [a, b, c, d]) == Step(lim, Step(lim, Step(lim, Step(lim, w, a), b), c), d)
  {
    hide Step, Run;
    var ab, abc, abcd := [a, b], [a, b, c], [a, b, c, d];
    E.RunOne(lim, w, a);
    assert ab[..1] == [a] && abc[..2] == ab && abcd[..3] == abc;
    RunSnoc(lim, w, ab);
    RunSnoc(lim, w, abc);
    RunSnoc(lim, w, abcd);
  }

  // ---------------------------------------------------------------- after a failure

  /** Nothing under way and no database. */
  predicate Waiting(w: State) {
    w.stage == Idle && !w.ready
  }

  predicate SameArchive(w: State, later: State) {
    && later.telemetry.stored == w.telemetry.stored && later.topics.stored == w.topics.stored
    && later.events.stored == w.events.stored && later.table == w.table && later.failures == w.failures
  }

  lemma {:induction false} ItemsArchiveNothing(w: State, lim: Limits, robot: string, skew: Option<int>, now: int,
                                               batch: seq<Item>)
    ensures SameArchive(w, ItemsRecorded(w, lim, robot, skew, now, batch))
    ensures Waiting(w) ==> Waiting(ItemsRecorded(w, lim, robot, skew, now, batch))
  {
    hide RowOf, SampleOf, Clamped, C.Note, Append;
    if batch != [] {
      ItemsArchiveNothing(w, lim, robot, skew, now, batch[..|batch| - 1]);
    }
  }

  lemma {:induction false} WaitingStep(lim: Limits, w: State, e: Event)
    requires Waiting(w) && e != FlushBegin(true)
    ensures Waiting(Step(lim, w, e)) && SameArchive(w, Step(lim, w, e))
  {
    hide ItemsRecorded, Append, Taken, Advanced;
    if e.RecordTopics? {
      ItemsArchiveNothing(SkewNoted(w, lim, e.robot, e.skew), lim, e.robot, e.skew, e.now, e.batch);
    }
  }

  lemma {:induction false} WaitingRun(lim: Limits, w: State, events: seq<Event>)
    requires Waiting(w) && FlushBegin(true) !in events
    ensures Waiting(Run(lim, w, events)) && SameArchive(w, Run(lim, w, events))
    decreases |events|
  {
    if events != [] {
      hide Step;
      assert events[0] in events && forall e :: e in events[1..] ==> e in events;
      WaitingStep(lim, w, events[0]);
      WaitingRun(lim, Step(lim, w, events[0]), events[1..]);
    }
  }

  /** A failed store call is counted and ends the flush, and until the database answers again nothing more is archived,
      whatever is recorded and however often a flush is attempted. */
  lemma {:induction false} FailureWaitsForDatabase(lim: Limits, w: State, events: seq<Event>)
    requires w.stage != Idle && FlushBegin(true) !in events
    ensures var later := Run(lim, Step(lim, w, StoreFailed), events);
            Waiting(later) && SameArchive(w.(failures := w.failures + 1), later)
  {
    WaitingRun(lim, Step(lim, w, StoreFailed), events);
  }
}
