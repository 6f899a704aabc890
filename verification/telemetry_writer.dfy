/** The `TelemetryWriter` object: its fields, the local variables its flush keeps across store calls, and the
    state of `Writer` they stand for. */
module TelemetryWriters {
  import opened Clock
  import opened Deques
  import opened Options
  import opened Writer
  import C = Catalogue
  import L = StreamLedger

  /** Recording an element leaves everything but the topic stream, the accumulator and two counters alone. */
  predicate OnlyTopics(w: State, w': State) {
    && w'.telemetry == w.telemetry && w'.events == w.events && w'.flight == w.flight && w'.stage == w.stage
    && w'.ready == w.ready && w'.seenIds == w.seenIds && w'.skewWarned == w.skewWarned && w'.skews == w.skews
    && w'.failures == w.failures
    && w'.topics.max == w.topics.max && w'.topics.flight == w.topics.flight && w'.topics.stored == w.topics.stored
  }

  /** What one usable element changes. */
  lemma {:induction false} ItemFacts(w: State, lim: Limits, robot: string, skew: Option<int>, now: int, item: Item)
    requires |w.topics.queue| <= w.topics.max && Usable(item)
    ensures var w' := ItemRecorded(w, lim, robot, skew, now, item);
            var row := RowOf(lim, robot, skew, now, item);
            && OnlyTopics(w, w') && w'.malformed == w.malformed
            && w'.topics.queue == Append(w.topics.queue, w.topics.max, row) && |w'.topics.queue| <= w.topics.max
            && |w'.topics.dropped| == |w.topics.dropped| + (if |w.topics.queue| == w.topics.max then 1 else 0)
            && w'.pending == C.Note(w.pending, SampleOf(row))
            && w'.clamped ==
                 w.clamped + (if Clamped(lim, RawTs(item.ts, now), Correction(lim, skew), now) then 1 else 0)
  {
    hide RowOf, SampleOf, Clamped, C.Note;
  }

  /** The whole buffer has moved into the hands of the flush. */
  predicate InHandNow<T(==)>(s: L.Stream<T>, s': L.Stream<T>) {
    s'.flight == s.queue && s'.queue == [] && s'.max == s.max && s'.stored == s.stored && s'.dropped == s.dropped
  }

  lemma {:induction false} TakenFacts(w: State)
    requires Inv(w) && w.stage == Idle
    ensures var t := Taken(w);
            && StoredBefore(t, Telemetry)
            && InHandNow(w.telemetry, t.telemetry) && InHandNow(w.topics, t.topics) && InHandNow(w.events, t.events)
            && t.flight == w.pending && t.pending == map[] && t.ready && t.stage == Idle
            && t.seenIds == w.seenIds && t.skewWarned == w.skewWarned && t.skews == w.skews
            && t.malformed == w.malformed && t.clamped == w.clamped && t.failures == w.failures
  {
    hide Sound;
  }

  /** Buffers, counts and bounds of one stream are the same. */
  predicate SameBuffer<T(==)>(s: L.Stream<T>, s': L.Stream<T>) {
    s'.queue == s.queue && s'.max == s.max && s'.stored == s.stored && s'.dropped == s.dropped
  }

  /** Only the stage is new, except that a flush that is over has nothing in hand. */
  predicate OnlyStage(w: State, w': State) {
    && SameBuffer(w.telemetry, w'.telemetry) && SameBuffer(w.topics, w'.topics) && SameBuffer(w.events, w'.events)
    && w'.pending == w.pending && w'.ready == w.ready && w'.seenIds == w.seenIds && w'.skewWarned == w.skewWarned
    && w'.skews == w.skews && w'.malformed == w.malformed && w'.clamped == w.clamped && w'.failures == w.failures
    && w'.telemetry.flight == (if w'.stage == Idle then [] else w.telemetry.flight)
    && w'.topics.flight == (if w'.stage == Idle then [] else w.topics.flight)
    && w'.events.flight == (if w'.stage == Idle then [] else w.events.flight)
    && w'.flight == (if w'.stage == Idle then map[] else w.flight)
  }

  /** Which stage comes next, and that the flush hands back everything when none does. */
  lemma {:induction false} AdvancedFacts(w: State, s: Stage)
    requires StoredBefore(w, s)
    ensures OnlyStage(w, Advanced(w, s))
    ensures Advanced(w, s).stage ==
            if s == Telemetry && w.telemetry.flight != [] then Telemetry
            else if Rank(s) <= Rank(Topics) && w.topics.flight != [] then Topics
            else if Rank(s) <= Rank(Catalog) && w.flight != map[] then Catalog
            else if Rank(s) <= Rank(Events) && w.events.flight != [] then Events
            else if w.seenIds != {} then Touch
            else Idle
  {
    NextStageIs(w, s);
    hide NextStage, OnlyStage;
    if NextStage(w, s) == Idle {
      SettledFacts(w);
    } else {
      MovedFacts(w, NextStage(w, s));
    }
  }

  lemma {:induction false} SettledFacts(w: State)
    requires w.telemetry.committed <==> w.telemetry.flight != []
    requires w.topics.committed <==> w.topics.flight != []
    requires w.events.committed <==> w.events.flight != []
    ensures OnlyStage(w, Settled(w))
  {
  }

  lemma {:induction false} TouchedFacts(w: State)
    requires Inv(w) && w.stage == Touch
    ensures Done(w).stage == Idle && OnlyStage(w.(seenIds := {}), Done(w))
  {
    hide Sound, OnlyStage;
    SettledFacts(w.(seenIds := {}));
  }

  lemma {:induction false} MovedFacts(w: State, n: Stage)
    requires n != Idle
    ensures OnlyStage(w, w.(stage := n))
  {
  }

  /** Each store call adds its batch to the rows stored. */
  lemma {:induction false} StoredFacts(w: State)
    requires Inv(w)
    ensures w.stage == Telemetry ==>
              var t := L.Step(w.telemetry, L.Store);
              t == w.telemetry.(stored := t.stored, committed := true)
              && |t.stored| == |w.telemetry.stored| + |w.telemetry.flight|
              && StoredBefore(w.(telemetry := t), Topics) && Done(w) == Advanced(w.(telemetry := t), Topics)
    ensures w.stage == Topics ==>
              var t := L.Step(w.topics, L.Store);
              t == w.topics.(stored := t.stored, committed := true)
              && |t.stored| == |w.topics.stored| + |w.topics.flight|
              && StoredBefore(w.(topics := t), Catalog) && Done(w) == Advanced(w.(topics := t), Catalog)
    ensures w.stage == Catalog ==>
              var v := w.(table := C.Upsert(w.table, w.flight));
              StoredBefore(v, Events) && Done(w) == Advanced(v, Events)
    ensures w.stage == Events ==>
              var t := L.Step(w.events, L.Store);
              t == w.events.(stored := t.stored, committed := true)
              && |t.stored| == |w.events.stored| + |w.events.flight|
              && StoredBefore(w.(events := t), Touch) && Done(w) == Advanced(w.(events := t), Touch)
  {
  }

  lemma {:induction false} FailedFacts(w: State)
    requires Inv(w) && w.stage != Idle
    ensures var w' := Failed(w);
            && w' == w.(telemetry := w'.telemetry, topics := w'.topics, events := w'.events,
                        pending := w.pending + w.flight, flight := map[], stage := Idle, ready := false,
                        failures := w.failures + 1)
            && PutBackOf(w.telemetry, w'.telemetry) && PutBackOf(w.topics, w'.topics) && PutBackOf(w.events, w'.events)
  {
    PutBackKeepsOldest(w.telemetry.queue, w.telemetry.max, w.telemetry.flight);
    PutBackKeepsOldest(w.topics.queue, w.topics.max, w.topics.flight);
    PutBackKeepsOldest(w.events.queue, w.events.max, w.events.flight);
  }

  predicate PutBackOf<T(==)>(s: L.Stream<T>, s': L.Stream<T>) {
    && s'.max == s.max && s'.flight == [] && s'.stored == s.stored && s'.dropped == s.dropped
    && s'.queue == ExtendLeft(s.queue, s.max, Reversed(s.flight)) && |s'.queue| <= s.max
  }

  class TelemetryWriter {
    const lim: Limits
    const bufferMax: nat
    const eventMax: nat
    const topicMax: nat

    var buffer: seq<TelemetryRow>
    var events: seq<EventRow>
    var topics: seq<TopicRow>
    var catalog: C.Table
    var seenIds: set<string>
    var skewWarned: set<string>
    var skew: map<string, int>

    // what the flush has in hand
    var batch: seq<TelemetryRow>
    var eventBatch: seq<EventRow>
    var topicBatch: seq<TopicRow>
    var catalogBatch: C.Table
    var stage: Stage
    var dbReady: bool

    var written: nat
    var topicsWritten: nat
    var eventsWritten: nat
    var dropped: nat
    var clamped: nat
    var flushFailures: nat

    ghost var w: State

    /** The fields mirror the state. */
    ghost predicate Mirrors()
      reads this
    {
      && buffer == w.telemetry.queue && batch == w.telemetry.flight && bufferMax == w.telemetry.max
      && events == w.events.queue && eventBatch == w.events.flight && eventMax == w.events.max
      && topics == w.topics.queue && topicBatch == w.topics.flight && topicMax == w.topics.max
      && catalog == w.pending && catalogBatch == w.flight && stage == w.stage && dbReady == w.ready
      && seenIds == w.seenIds && skewWarned == w.skewWarned && skew == w.skews
    }

    /** The counters tell the truth: rows written with multiplicity, rows dropped, stamps clamped. */
    ghost predicate Counts()
      reads this
    {
      && written == |w.telemetry.stored| && topicsWritten == |w.topics.stored| && eventsWritten == |w.events.stored|
      && dropped == |w.telemetry.dropped| + |w.topics.dropped| + w.malformed
      && clamped == w.clamped && flushFailures == w.failures
    }

    ghost predicate Valid()
      reads this
    {
      && Mirrors() && Counts() && Inv(w)
      && |buffer| <= bufferMax && |events| <= eventMax && |topics| <= topicMax
    }

    constructor (lim: Limits, bufferMax: nat, eventMax: nat, topicMax: nat, dbReady: bool)
      ensures Valid() && this.lim == lim
      ensures w == Init(bufferMax, eventMax, topicMax, dbReady)
    {
      this.lim, this.bufferMax, this.eventMax, this.topicMax := lim, bufferMax, eventMax, topicMax;
      buffer, events, topics, catalog := [], [], [], map[];
      batch, eventBatch, topicBatch, catalogBatch := [], [], [], map[];
      seenIds, skewWarned, skew, stage, this.dbReady := {}, {}, map[], Idle, dbReady;
      written, topicsWritten, eventsWritten, dropped, clamped, flushFailures := 0, 0, 0, 0, 0, 0;
      w := Init(bufferMax, eventMax, topicMax, dbReady);
      new;
      InitInv(bufferMax, eventMax, topicMax, dbReady);
    }

    method Record(row: TelemetryRow)
      requires Valid()
      modifies this`buffer, this`seenIds, this`dropped, this`w
      ensures Valid() && w == Recorded(old(w), row)
    {
      hide Inv, L.Step, Append;
      StepKeepsInv(lim, w, Event.Record(row));
      L.AcceptFacts(w.telemetry, row);
      assert Inv(Recorded(w, row));
      hide Step;
      w := Recorded(w, row);
      if |buffer| == bufferMax {
        dropped := dropped + 1;
      }
      buffer := Append(buffer, bufferMax, row);
      seenIds := seenIds + {row.robot};
    }

    /** Events that no longer fit are not counted. */
    method NoteEvent(row: EventRow)
      requires Valid()
      modifies this
      ensures Valid() && w == EventNoted(old(w), row)
    {
      hide Inv, L.Step, Append;
      StepKeepsInv(lim, w, Event.NoteEvent(row));
      L.AcceptFacts(w.events, row);
      assert Inv(EventNoted(w, row));
      hide Step;
      w := EventNoted(w, row);
      events := Append(events, eventMax, row);
    }

    method NoteSkew(robot: string, measured: int)
      requires Valid()
      modifies this
      ensures Valid() && w == SkewKept(old(w), robot, measured)
    {
      hide Sound, L.Step;
      skew := skew[robot := measured];
      w := w.(skews := skew);
      if robot in skewWarned {
        return;
      }
      skewWarned := skewWarned + {robot};
      w := w.(skewWarned := skewWarned);
      NoteEvent(EventRow(robot, "clock", ""));
    }

    method EnqueueTopic(row: TopicRow)
      modifies this`topics, this`dropped
      ensures topics == Append(old(topics), topicMax, row)
      ensures dropped == old(dropped) + (if |old(topics)| == topicMax then 1 else 0)
    {
      if |topics| == topicMax {
        dropped := dropped + 1;
      }
      topics := Append(topics, topicMax, row);
    }

    method NoteSample(s: C.Sample)
      modifies this`catalog
      ensures catalog == C.Note(old(catalog), s)
    {
      var seen := if s.key in catalog then catalog[s.key] else C.BLANK;
      seen := C.Entry(seen.samples + 1, s.text, s.stamp, seen.lastChanged);
      if s.changed {
        seen := seen.(lastChanged := s.stamp);
      }
      catalog := catalog[s.key := seen];
    }

    /** The body of the loop over a batch. */
    method RecordItem(robot: string, skew: Option<int>, now: int, correction: int, item: Item)
      requires Valid() && correction == Correction(lim, skew)
      modifies this
      ensures Valid() && w == ItemRecorded(old(w), lim, robot, skew, now, item)
    {
      hide Inv, L.Step, StagesAgree, Sound;
      if !Usable(item) {
        ItemKeepsInv(w, lim, robot, skew, now, item);
        w := ItemRecorded(w, lim, robot, skew, now, item);
        dropped := dropped + 1;
      } else {
        RecordUsable(robot, skew, now, correction, item);
      }
    }

    method RecordUsable(robot: string, skew: Option<int>, now: int, correction: int, item: Item)
      requires Valid() && correction == Correction(lim, skew) && Usable(item)
      modifies this`topics, this`dropped, this`catalog, this`clamped, this`w
      ensures Valid() && w == ItemRecorded(old(w), lim, robot, skew, now, item)
    {
      hide Inv, ItemRecorded, Append, Correct, Correction, Clamped, C.Note, SkewMs, RawTs, Cut, RowOf, SampleOf;
      ItemFacts(w, lim, robot, skew, now, item);
      ItemKeepsInv(w, lim, robot, skew, now, item);
      Enter(robot, skew, now, correction, item);
      w := ItemRecorded(w, lim, robot, skew, now, item);
    }

    /** Correct the stamp, and put row and sample where they belong. */
    method Enter(robot: string, skew: Option<int>, now: int, correction: int, item: Item)
      requires correction == Correction(lim, skew) && Usable(item)
      modifies this`topics, this`dropped, this`catalog, this`clamped
      ensures topics == Append(old(topics), topicMax, RowOf(lim, robot, skew, now, item))
      ensures dropped == old(dropped) + (if |old(topics)| == topicMax then 1 else 0)
      ensures catalog == C.Note(old(catalog), SampleOf(RowOf(lim, robot, skew, now, item)))
      ensures clamped == old(clamped) + (if Clamped(lim, RawTs(item.ts, now), correction, now) then 1 else 0)
    {
      hide Append, Correct, Correction, Clamped, C.Note, SkewMs, RawTs, Cut;
      var raw := RawTs(item.ts, now);
      var stamp := Correct(lim, raw, correction, now);
      if Clamped(lim, raw, correction, now) {
        clamped := clamped + 1;
      }
      var topic := Cut(item.topic, 500);
      EnqueueTopic(TopicRow(robot, stamp, now, SkewMs(skew), topic, item.value, item.flag));
      NoteSample(C.Sample((robot, topic), stamp, Cut(item.value, 200), item.flag == 0));
    }

    method RecordTopics(robot: string, items: seq<Item>, skew: Option<int>, now: int)
      requires Valid()
      modifies this
      ensures Valid() && w == TopicsRecorded(old(w), lim, robot, skew, now, items)
    {
      var correction := 0;
      if skew.Some? && Abs(skew.value) >= lim.correctFrom {
        correction := skew.value;
        NoteSkew(robot, skew.value);
      }
      ghost var w0 := w;
      assert w0 == SkewNoted(old(w), lim, robot, skew);
      for i := 0 to |items|
        invariant Valid() && w == ItemsRecorded(w0, lim, robot, skew, now, items[..i])
      {
        assert items[..i + 1][..i] == items[..i];
        RecordItem(robot, skew, now, correction, items[i]);
      }
      assert items[..|items|] == items;
    }

    /** `_flush_once` up to its first store call. */
    method FlushBegin(reconnects: bool)
      requires Valid() && stage == Idle
      modifies this
      ensures Valid() && w == Begun(old(w), reconnects)
    {
      hide Inv, StagesAgree, Sound, NextStage, Advanced, StoredBefore, Taken, Append;
      hide L.Step, L.Balanced, L.Ordered, L.Archived;
      BegunKeepsInv(w, reconnects);
      TakenFacts(w);
      if buffer == [] && events == [] && topics == [] {
        return;
      }
      if !dbReady {
        if !reconnects {
          return;
        }
        dbReady := true;
      }
      w := Taken(w);
      TakeAll();
      Proceed(Telemetry);
    }

    method TakeAll()
      modifies this`buffer, this`events, this`topics, this`catalog
      modifies this`batch, this`eventBatch, this`topicBatch, this`catalogBatch
      ensures batch == old(buffer) && eventBatch == old(events) && topicBatch == old(topics)
              && catalogBatch == old(catalog)
      ensures buffer == [] && events == [] && topics == [] && catalog == map[]
    {
      batch, eventBatch, topicBatch, catalogBatch := buffer, events, topics, catalog;
      buffer, events, topics, catalog := [], [], [], map[];
    }

    /** From stage `s` on: stop at the next batch to store, or finish. */
    method Proceed(s: Stage)
      requires Mirrors() && Counts() && StoredBefore(w, s)
      modifies this`stage, this`batch, this`eventBatch, this`topicBatch, this`catalogBatch, this`w
      ensures Mirrors() && Counts() && w == Advanced(old(w), s)
    {
      hide Inv, L.Step, L.Balanced, L.Ordered, L.Archived, Advanced, NextStage, StoredBefore, StagesAgree, Sound;
      AdvancedFacts(w, s);
      w := Advanced(w, s);
      stage := if s == Telemetry && batch != [] then Telemetry
               else if Rank(s) <= Rank(Topics) && topicBatch != [] then Topics
               else if Rank(s) <= Rank(Catalog) && catalogBatch != map[] then Catalog
               else if Rank(s) <= Rank(Events) && eventBatch != [] then Events
               else if seenIds != {} then Touch
               else Idle;
      if stage == Idle {
        Release();
      }
    }

    method Release()
      modifies this`batch, this`eventBatch, this`topicBatch, this`catalogBatch, this`stage
      ensures batch == [] && eventBatch == [] && topicBatch == [] && catalogBatch == map[] && stage == Idle
    {
      batch, eventBatch, topicBatch, catalogBatch, stage := [], [], [], map[], Idle;
    }

    /** Count the batch just stored; `next` is the stage after it. */
    method Commit() returns (next: Stage)
      requires Valid() && stage != Idle && stage != Touch
      modifies this`written, this`topicsWritten, this`eventsWritten, this`w
      ensures Mirrors() && Counts()
      ensures StoredBefore(w, next) && Done(old(w)) == Advanced(w, next)
    {
      hide Inv, NextStage, Advanced, C.Upsert, StoredBefore, Staged, StagesAgree, Sound, Done;
      hide L.Step, L.Balanced, L.Ordered, L.Archived;
      StoredFacts(w);
      if stage == Telemetry {
        written, next := written + |batch|, Topics;
        w := w.(telemetry := L.Step(w.telemetry, L.Store));
      } else if stage == Topics {
        topicsWritten, next := topicsWritten + |topicBatch|, Catalog;
        w := w.(topics := L.Step(w.topics, L.Store));
      } else if stage == Catalog {
        next := Events;
        w := w.(table := C.Upsert(w.table, w.flight));
      } else {
        eventsWritten, next := eventsWritten + |eventBatch|, Touch;
        w := w.(events := L.Step(w.events, L.Store));
      }
    }

    /** `_flush_once` resumed after the store call of the current stage committed. */
    method StoreDone()
      requires Valid() && stage != Idle
      modifies this
      ensures Valid() && w == Done(old(w))
    {
      hide Inv, NextStage, Advanced, L.Step, StoredBefore, Done;
      DoneKeepsInv(w);
      if stage == Touch {
        Touched();
      } else {
        var next := Commit();
        Proceed(next);
      }
    }

    /** The last stage: the robots heard of are forgotten and the flush is over. */
    method Touched()
      requires Valid() && stage == Touch
      modifies this`stage, this`batch, this`eventBatch, this`topicBatch, this`catalogBatch, this`seenIds, this`w
      ensures Mirrors() && Counts() && w == Done(old(w))
    {
      hide Inv, L.Step, Done, Sound;
      TouchedFacts(w);
      w := Done(w);
      seenIds := {};
      Release();
    }

    /** `_flush_once` resumed after the store call of the current stage failed. */
    method StoreFailed()
      requires Valid() && stage != Idle
      modifies this
      ensures Valid() && w == Failed(old(w))
    {
      hide Inv, Failed, ExtendLeft, Reversed;
      FailedKeepsInv(w);
      FailedFacts(w);
      w := Failed(w);
      flushFailures := flushFailures + 1;
      dbReady := false;
      Requeue();
    }

    /** Put the batches back at the front and the catalogue entries over newer ones. */
    method Requeue()
      modifies this`buffer, this`events, this`topics, this`catalog
      modifies this`batch, this`eventBatch, this`topicBatch, this`catalogBatch, this`stage
      ensures buffer == ExtendLeft(old(buffer), bufferMax, Reversed(old(batch)))
      ensures events == ExtendLeft(old(events), eventMax, Reversed(old(eventBatch)))
      ensures topics == ExtendLeft(old(topics), topicMax, Reversed(old(topicBatch)))
      ensures catalog == old(catalog) + old(catalogBatch)
      ensures batch == [] && eventBatch == [] && topicBatch == [] && catalogBatch == map[] && stage == Idle
    {
      buffer := ExtendLeft(buffer, bufferMax, Reversed(batch));
      events := ExtendLeft(events, eventMax, Reversed(eventBatch));
      topics := ExtendLeft(topics, topicMax, Reversed(topicBatch));
      catalog := catalog + catalogBatch;
      Release();
    }
  }
}
