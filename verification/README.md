# ITRI fleet: a verified model of the telemetry path

The repository relays what a wheeled robot's own software publishes to a fleet server and archives it. This
project follows one sample along that path and proves what every step keeps.

On the vehicle, `Bridge` filters samples into a bounded buffer and publishes numbered batches at QoS 1,
possibly on two topics. The embedded MQTT broker parses, authorises and routes them. `TelemetryRouter` drops
redelivered batches, `TelemetryWriter` corrects clocks, buffers rows and flushes them in stages that can fail
one by one, and the database keeps daily partitions for a limited time. Beside the archive run the alert
engine, the live fleet state with its push to dashboards, the registry of tokens and credentials, and the
recorder on the vehicle.

## How it is laid out

Each part has a value-level specification and, where the source updates fields in place, a class whose
methods are proved equal to it; the theorems are about the specification.

| files | part |
|---|---|
| `options.dfy`, `deques.dfy`, `stream_ledger.dfy`, `string_order.dfy` | shared: bounded deques, the ledger of a re-queueing stream, string order |
| `topics.dfy`, `wire.dfy`, `broker.dfy`, `answers.dfy`, `mqtt_broker.dfy` | the MQTT 3.1.1 broker: wildcard matching, wire format, routing and answers over whole runs, the classes |
| `relay_filter.dfy`, `relay_numbers.dfy`, `sender.dfy`, `bridge.dfy` | the agent |
| `dedup.dfy`, `router.dfy`, `uplink.dfy` | the router, and the uplink end to end |
| `clock.dfy`, `catalogue.dfy`, `writer.dfy`, `writer_flush.dfy`, `writer_counters.dfy`, `writer_catalogue.dfy`, `writer_failures.dfy`, `telemetry_writer.dfy` | the archive writer, what a flush stores, its counters and its catalogue over runs, and three runs in which a failing flush does harm |
| `end_to_end.dfy` | the uplink feeding the writer, rows and clocks |
| `calendar.dfy`, `retention.dfy`, `database.dfy` | daily partitions and retention |
| `alerts.dfy`, `alert_conditions.dfy`, `alert_engine.dfy`, `alert_runs.dfy` | the alert engine: one rule, what rules notice, one tick, and runs |
| `pusher.dfy`, `pusher_task.dfy`, `silence_alarms.dfy` | the ticker that drives reaper, alerts and push, and the alert about a silent robot |
| `fleet.dfy`, `fleet_state.dfy`, `hub.dfy`, `dashboards.dfy`, `dashboard_hub.dfy` | presence, the delta push and what dashboards show |
| `registry.dfy`, `enrolments.dfy`, `registry_store.dfy` | tokens, credentials, cache and broker sessions, and how a password comes to be accepted |
| `recordings.dfy`, `recorder.dfy` | the local recorder |

Runs are sequences of events over total step functions; an event that is not possible in a state changes
nothing. A handler that suspends is split where it suspends: a flush of the agent or the writer, a join and a
push of the hub and a refresh of the credential cache are begun and ended by separate events, and anything may
happen in between.

Every lemma carries `{:induction false}`: each induction is written out in its body.

## Where the code and its comments disagree

The model follows the code; each case has a lemma with a concrete input or the exact condition.

- `agent/itri_agent/bridge.py:267` calls a number taken back "never delivered". With two uplink topics one of
  which accepted the batch it was (`Sender.NumberReusedIffPartial`, `Uplink.PartialPublishLosesRows`).
- `server/history.py:289` puts batches back so that a retry keeps them in order. A batch whose own stage had
  already committed will be stored again (`Writer.RepeatedIffLateFailure` says when,
  `WriterFailures.LateFailureArchivesTwice` shows it), and a full buffer silently loses its newest rows
  (`StreamLedger.PutBackCutsNewest`).
- `server/history.py:293-294` restores catalogue entries over whatever accumulated during the flush: samples are
  forgotten (`WriterFailures.FailureForgetsSample`) or counted twice, and change stamps lost even where the two
  errors cancel (`WriterFailures.FailureHidesChange`). `WriterCatalogue.CatalogueLedger` accounts for both errors
  and `WriterCatalogue.FailureHarmlessIff` says exactly when the outcome is what it would have been.
- `server/schema.sql:87-88` says the vehicle's own time is always recoverable as `ts + skew_ms`
  (`Clock.RawTimeRecoverableIff` says when, `Clock.SmallSkewMisleads` shows a case).
- `server/history.py:200-208` maps a vehicle's time onto the server's by subtracting the skew. A sample without a time
  is dated by the server's own clock and shifted all the same (`EndToEnd.UntimedIsReceivedIff`,
  `EndToEnd.UntimedIsBackdated`).
- `server/history.py:227` promises one event per robot and crossing of the skew threshold; a robot whose clock was put
  right gets no second one (`WriterCounters.FarOffIsNotedOnce`).
- `server/history.py:282-284` clears the robots heard of after their last contact is stored, and with them those first
  heard of meanwhile (`WriterCounters.TouchForgetsIff`, `WriterCounters.TouchForgets`).
- `server/main.py:323-325` says a client's revision map drifts only if a send fails. A client also misses a robot
  that changed while its snapshot was being sent, until the robot's next revision is pushed to it
  (`Hub.JoinMissesIff`, `Hub.ChangeDuringJoinIsMissed`, `Hub.MissEndsIff`), and a changed link without a change of
  presence is not pushed (`Hub.SilentLinkIsNotPushed`, `Hub.LinkShownIff`).
- `server/main.py:1163-1164` refreshes the cache before kicking so that no reconnect slips in. Another refresh that
  read its rows before the revoke can still install them after the kick (`Registry.RevocationHoldsIff`,
  `Registry.StaleRefreshRun`).
- `server/alerts.py:142` reads an upper bound of 0 as missing (`Alerts.RangeHonouredIff`), and a threshold rule
  stored without its number can stop every later rule (`AlertEngines.TickCompletesIff`) and with them every push to
  the dashboards, as the ticker runs both under one handler (`Pushers.PusherPushesIff`).
- `server/history.py:315-316` says retention bounds time. A refused partition upkeep ends the maintenance cycle before
  retention (`Retention.MaintenanceKeepsIff`, `Retention.BlockedCyclesRemoveNothing`).
- `server/ingest.py:55-58` calls the duplicate filter's window far more than enough. A repeat that comes later is
  accepted again (`Dedup.ExactlyOnceIffTimely`, `Dedup.LateRepeatIsAcceptedTwice`).

## Hypotheses

- Clocks are positive and do not go back within one process; one tick of the alert engine reads one `now`,
  and the reading taken when an alert is sent is no earlier and before the next tick.
- An agent run has a boot id no earlier run had, and the server is not restarted: a restart would empty the duplicate
  filter, which lives in memory. A connection and a dashboard socket are made once; the ids of alert rules are
  distinct, being a primary key.
- A store call commits fully or fails; each registry operation is one transaction; authenticating and adding
  the session is one step.
- JSON, UTF-8 and SHA-256 are injective and hidden behind values: topics and payloads are strings (bytes in
  `Wire`), a hash determines its secret.
- Times are whole milliseconds in `Clock` and `Retention`, real seconds elsewhere; dates are UTC with
  four-digit years.

## Model

| member | source | states |
|---|---|---|
| `Deques.PutBackKeepsOldest` | agent/itri_agent/bridge.py:268-269 | `extendleft(reversed(batch))` restores the batch ahead of the queue in its order; when the two exceed `maxlen`, exactly the newest rows go |
| `Deques.AppendAllKeepsNewest` | server/history.py:109-116 | any series of appends to a bounded deque leaves the newest `maxlen` of what it held and what was appended |
| `StreamLedger.RunConserves` | server/history.py:251-300 | over every interleaving of appends, takes, stores and failures: accepted plus replayed rows equal, with multiplicity, stored + in hand + queued + dropped + cut |
| `StreamLedger.NothingVanishes` | server/history.py:251-300 | an accepted row is always stored, in hand, queued, dropped or cut |
| `StreamLedger.RunKeepsOrder` | agent/itri_agent/bridge.py:238-271 | rows sent, in hand and queued stay a subsequence of the accepted rows in order, and all of them when nothing overflowed |
| `StreamLedger.ReplayedIffLateFailure` | server/history.py:270-294 | rows are put back after having been stored exactly on runs with a failure after the stream's own store call |
| `StreamLedger.LateFailureRepeats` | server/history.py:285-292 | after a failure that follows the stream's own store call the batch's first row is stored and heads the queue again, however full the buffer was |
| `StreamLedger.ExactlyOnceIffNoLateFailure` | server/history.py:270-294 | the ledger counts every accepted row once exactly on runs without such a failure, and then in order |
| `StreamLedger.PutBackCutsNewest` | server/history.py:289-292 | one put-back loses exactly max(0, batch + arrived - maxlen) rows, the newest |
| `Topics.JoinSplit` | server/broker.py:49-50 | splitting at `/` loses nothing, and no level contains `/` |
| `Topics.SplitJoin` | server/broker.py:49-50 | joining levels and splitting gives the same levels |
| `Topics.TopicMatches` | server/broker.py:47-63 | the broker's loop decides the declarative meaning of sections 4.7.1 and 4.7.2 of MQTT 3.1.1, for every filter and topic |
| `Topics.AgentTopicMatches` | agent/itri_agent/config.py:134-146 | the agent's loop decides the same meaning without the `$` rule |
| `Topics.MatchersDisagreeIff` | server/broker.py:47-63 | the broker's match implies the agent's; they differ exactly on `$` topics under a filter whose first level is a wildcard |
| `Topics.TailCoversParent` | server/broker.py:52-54 | to the broker's matcher and to the agent's alike `parent/#` matches the parent itself and everything below it, and nothing else |
| `Topics.OneLevelFilter` | agent/itri_agent/config.py:134-146 | a filter of one level: `+` matches the topics of one level, `#` every topic, any other level only itself |
| `Topics.FilterBySlash` | agent/itri_agent/config.py:134-146 | a level, a slash and a filter: the topic splits at a slash in the same way, or the rest is `#` and the topic is what the level matches; a `#` that is not last matches nothing. With the row above this fixes the meaning of every filter |
| `RelayFilter.RunAgrees` | agent/itri_agent/bridge.py:207-216 | over every run the filter's memory of a topic is its last relayed row |
| `RelayFilter.RunHonest` | agent/itri_agent/bridge.py:183-210 | over every run relayed rows of a topic are at least 1/max_rate_hz apart, a heartbeat repeats an unchanged value after at least `heartbeat_s`, a change differs by more than the deadband |
| `RelayFilter.HeartbeatLiveness` | agent/itri_agent/bridge.py:183-205 | a topic offered with gaps of at most g is relayed at gaps below max(heartbeat_s, 1/max_rate_hz) + g |
| `RelayFilter.ErrorBound` | agent/itri_agent/bridge.py:188-210 | after every offer that is not rate-skipped, the last relayed value is `_same` as the offered one |
| `RelayFilter.TopicsAreIndependent` | agent/itri_agent/bridge.py:179-210 | one topic's decision does not depend on another topic's traffic |
| `RelayNumbers.RelayedIff` | agent/itri_agent/bridge.py:174-216 | over every run, from the rows relayed before: an offer is relayed exactly if its topic is admitted, a rate period has passed, and the value differs, or every value is to be relayed, or a heartbeat is due; and under which flag |
| `RelayNumbers.ErrorBoundInNumbers` | agent/itri_agent/bridge.py:365-369 | after every offer that is late enough the value last relayed is no further than the deadband from the offered one, in numbers; texts are equal, truth values count as 1 and 0 |
| `RelayNumbers.RunTruthful` | agent/itri_agent/bridge.py:183-210 | over every run a heartbeat repeats a value within the deadband after at least `heartbeat_s`, and a change differs by more than the deadband one way or the other |
| `RelayNumbers.RunAdmitted` | agent/itri_agent/bridge.py:174-178 | over every run no relayed row matches an excluded filter, and each matches an included one unless there is none |
| `RelayNumbers.RunClocks` | agent/itri_agent/bridge.py:179-210 | over every run the agent remembers of each topic when it was last offered, though it be dropped, and when its relayed value last differed from the one before |
| `Sender.PublishedNumbered` | agent/itri_agent/bridge.py:249-271 | after every flush the delivered batches carry the numbers 1, 2, ... and together are the rows sent |
| `Sender.NumberReusedIffPartial` | agent/itri_agent/bridge.py:261-270 | the next batch's number is already on the wire exactly when one topic accepted and another refused the batch |
| `Sender.FlushesDrain` | agent/itri_agent/bridge.py:238-271 | n flushes that succeed send exactly the oldest n * `max_batch` buffered rows in order, in batches full but for the last, under consecutive numbers |
| `AgentBridge.OfferedLawful` | agent/itri_agent/bridge.py:167-216 | every offer keeps the filter's and the buffer's invariants and their agreement |
| `AgentBridge.FlushLawful` | agent/itri_agent/bridge.py:238-271 | both halves of a flush keep them too |
| `AgentBridge.Bridge.constructor` | agent/itri_agent/bridge.py:56-100 | a started agent has relayed and sent nothing |
| `AgentBridge.Bridge.Enqueue` | agent/itri_agent/bridge.py:212-216 | a full buffer loses its oldest row and counts it |
| `AgentBridge.Bridge.Admit` | agent/itri_agent/bridge.py:174-210 | include/exclude, rate limit, change detection, heartbeat: the fields end as the filter specification says |
| `AgentBridge.Bridge.Offer` | agent/itri_agent/bridge.py:167-216 | the object after an offer stands for the specified agent after that offer |
| `AgentBridge.Bridge.TakeBatch` | agent/itri_agent/bridge.py:238-250 | a batch of at most `max_batch` oldest rows gets the next number |
| `AgentBridge.Bridge.Publish` | agent/itri_agent/bridge.py:261-271 | success counts the batch, failure restores it and takes the number back |
| `AgentBridge.RelayedRowsAreAccountedFor` | agent/itri_agent/bridge.py:212-271 | relayed = sent + in flight + buffered + `dropped_buffer` + cut, and the first three in order are a subsequence of the relayed rows |
| `AgentBridge.QuietRetryLosesNothing` | agent/itri_agent/bridge.py:266-270 | a failed flush during which nothing is offered restores the sender exactly |
| `Dedup.WindowIsNewest` | server/ingest.py:147-149 | the window holds the most recent min(n, window) accepted keys in acceptance order |
| `Dedup.DroppedIffRecent` | server/ingest.py:142-149 | a repeat is dropped exactly when fewer than `dedup_window` keys were accepted since its acceptance |
| `Dedup.AcceptsWhatArrives` | server/ingest.py:142-149 | every key that arrives is accepted, and no other |
| `Dedup.TimelyRefinesUnbounded` | server/ingest.py:55-63 | when repeats are timely, the window accepts what an unbounded seen-set would, in order |
| `Dedup.ExactlyOnceIffTimely` | server/ingest.py:55-63 | no key is accepted twice exactly when every repeat is timely |
| `Dedup.LateRepeatIsAcceptedTwice` | server/ingest.py:148-149 | for every window size: a key that comes back after `window` or more other keys is accepted twice |
| `Dedup.FewKeysAreTimely` | server/ingest.py:55-60 | as many keys as the window holds cannot make a repeat late |
| `Router.BothTopicsAreOneStream` | server/ingest.py:69-88 | `samples` and `raw` of one robot are one stream |
| `Router.TelemetryRouter.Remember` | server/ingest.py:142-149 | the eviction loop leaves the window the filter specification gives |
| `Router.TelemetryRouter.ApplySamples` | server/ingest.py:111-170 | every branch: malformed, duplicate, unversioned, accepted, with skew and counters |
| `Router.TelemetryRouter.Handle` | server/ingest.py:69-100 | short topics and other kinds leave the sample state alone; a status payload that is not an object counts as dropped and touches nothing else |
| `Router.RunFollowsDedup` | server/ingest.py:123-170 | arrivals = calls + duplicates + dropped, and batches without a key do not disturb the window |
| `Router.RowsAreAccountedFor` | server/ingest.py:133-170 | over every run each row that could be read was passed on or counted as a duplicate, and each envelope without a key counted as unversioned |
| `Uplink.RunKeepsInv` | agent/itri_agent/bridge.py:238-271 | over every run, however each publish came out on each topic: every batch a current agent run counts as sent is on the wire under its number, beyond those only the number taken back last, and only published batches arrive |
| `Uplink.WholeRunMatches` | agent/itri_agent/bridge.py:238-271 | over every run in which each publish succeeds on all topics or on none, no two batches on the wire share a key and each is one the agent counts as sent |
| `Uplink.FirstArrivalWins` | server/ingest.py:137-149 | with timely repeats a batch reaches `on_raw` once with its rows iff the first arrival under its key carries them |
| `Uplink.UplinkIsExactlyOnce` | server/ingest.py:133-170 | end to end over every run, with duplication, delay, reordering, restarts and half-failed publishes: no key reaches `on_raw` twice iff repeats are timely, and then a batch whose key arrives reaches it exactly once with its rows iff it was the first to arrive under its key; all-or-nothing publishing guarantees that |
| `Uplink.SentRowsReachTheArchive` | agent/itri_agent/bridge.py:249-271 | over every run the rows counted as sent are the run's batches in order, and once all have arrived each was handed to `on_raw` exactly once iff nothing else arrived under its key before |
| `Uplink.PartialPublishLosesRows` | agent/itri_agent/bridge.py:261-270 | with two uplink topics and a half-failed publish, a row counted as sent reaches no `on_raw` call |
| `Catalogue.UpsertRows` | server/db.py:337-357 | the row-by-row upsert is the merge of the table with the batch |
| `Catalogue.UpsertFold` | server/db.py:346-348 | upserting a fold onto a fold agrees with one fold of both |
| `Catalogue.BatchingDoesNotShow` | server/history.py:190-196 | stored `samples`, `last_value` and `last_seen` are one fold over all samples, wherever the flushes fell |
| `Catalogue.StoredChangedBetween` | server/db.py:349-355 | `last_changed` lies between the newest change and the greatest change stamp |
| `Catalogue.LastChangedInvariantIff` | server/db.py:349-355 | `last_changed` is independent of flush placement exactly when the newest change carries the greatest stamp |
| `Catalogue.NondecreasingStampsSuffice` | server/history.py:194-196 | nondecreasing change stamps guarantee that |
| `Catalogue.ClockSetBackShows` | server/db.py:349-355 | a clock set back between two changes makes the flush placement visible |
| `Clock.StampStaysInWindow` | server/history.py:218-224 | no vehicle clock moves a stamp outside [now - max_backfill, now + max_future] |
| `Clock.RawTimeRecoverableIff` | server/history.py:155-161 | exactly when `ts + skew_ms` is the vehicle's own time |
| `Clock.SmallSkewMisleads` | server/history.py:155-161 | a clock half a second ahead: `ts + skew_ms` is half a second later than the vehicle's own time |
| `Clock.SpacingKept` | server/history.py:203-208 | unclamped rows of a batch keep their distances |
| `Writer.RunKeepsInv` | server/history.py:107-300 | all three streams conserve rows and keep order over every interleaving of records with flushes failing anywhere |
| `Writer.CountedOnceIffNoLateFailure` | server/history.py:270-294 | each stream's ledger adds up (accepted = stored + in hand + queued + dropped + cut) exactly on runs without a failure after its own stage, and then its rows are in order |
| `Writer.RepeatedIffLateFailure` | server/history.py:270-294 | for pairwise different accepted rows and a buffer with room: at some moment of the run a row is stored and to be stored again exactly when some flush fails after the stream's own stage with rows of it in hand |
| `WriterFailures.LateFailureArchivesTwice` | server/history.py:270-294 | a run from the empty writer in which one topic row is archived twice and its catalogue counts one sample twice |
| `WriterFailures.FailureForgetsSample` | server/history.py:293-294 | a run in which a sample recorded during the failing flush is lost to the catalogue |
| `WriterCatalogue.FailureHarmlessIff` | server/history.py:285-294 | in every reachable state, and known before it fails: a failing flush leaves the whole catalogue that will come to be exactly as it was iff, its catalogue not yet committed, no topic in hand was noted again meanwhile, or, once it is, each was noted again with the same reading and no newer change stamp; without the last condition, all but the change stamps |
| `WriterFailures.FailureHidesChange` | server/history.py:285-294 | a run in which two samples are overwritten and two counted again, so that counts and readings come out right, while the stamp of the one change is lost |
| `Writer.NoRowVanishes` | server/history.py:285-297 | an accepted topic row is stored, in hand, queued, dropped or cut, and a failed flush cuts exactly the newest overflow |
| `WriterFlush.FlushStoresEverything` | server/history.py:251-300 | from every idle state the writer can come to, with a row in any buffer and a database: a flush whose store calls commit ends after at most five of them with every buffered row appended in order, the buffers empty, the table merged with what was pending and the robots heard of forgotten |
| `WriterFlush.NothingToFlush` | server/history.py:251-257 | while a flush is under way, with nothing buffered, or without a database, an attempt changes nothing |
| `WriterCatalogue.CatalogueLedger` | server/history.py:265-294 | per topic: stored + in hand + pending + overwritten = accepted + counted again, over every run |
| `WriterCatalogue.CatalogueIsOneFold` | server/history.py:190-196 | over every run whose failing flushes keep the readings in that sense, the catalogue agrees with one fold over all samples, even those recorded during flushes, in count, last value and last seen |
| `WriterCatalogue.LastChangedBetween` | server/db.py:349-355 | over every run of the writer, whatever fails, `last_changed` comes to at most the greatest change stamp of the topic; and to at least that of its newest change if the failing flushes are harmless |
| `WriterCatalogue.CatalogueIsTheFold` | server/history.py:251-297 | over every run whose failing flushes are harmless, with each topic's changes in order of their stamps, the catalogue comes to the fold of all samples in every column, and the table is that fold once nothing is in hand or pending |
| `EndToEnd.AcceptsWellFormed` | server/history.py:163-196 | over every run, flushes and failures included, the writer accepts the well-formed elements of the batches it is given, in order, and no others |
| `EndToEnd.SentRowsAreLocated` | server/main.py:235-239 | over every run of the uplink and every run of the writer it feeds: once a batch counted as sent on the vehicle has arrived first under its key, each of its well-formed rows is stored, in hand, queued, or counted as dropped or cut |
| `EndToEnd.SkewIsMeasured` | server/ingest.py:160-170 | a batch sent by a clock running ahead reaches `on_raw` with the difference of the clocks less the time on the way, which is also remembered for its robot |
| `EndToEnd.StoredAtTrueTime` | server/history.py:198-224 | within the window a sample is stored under the time it was truly taken plus the time on the way, or off by less than the threshold of correction |
| `EndToEnd.StoredAtReceipt` | server/history.py:218-224 | outside the window it is stored under the time of receipt |
| `EndToEnd.AcceptedAtTrueTime` | server/main.py:235-239 | from the vehicle's clock to the writer: the batch arrives, its skew is measured, and its samples are accepted at their true times plus the time on the way |
| `EndToEnd.UntimedIsReceivedIff` | server/history.py:177-181 | a sample without a time, dated by the server's own clock and yet corrected by the vehicle's skew, is stored under the time of receipt exactly when the skew is absent, zero, below the threshold or out of the window, and off by the whole skew otherwise |
| `EndToEnd.UntimedIsBackdated` | server/history.py:177-181 | with a vehicle clock an hour ahead it is stored as an hour old |
| `WriterCounters.EveryElementIsCounted` | server/history.py:163-196 | over every run each element of a relayed batch is accepted or counted as malformed, the malformed ones are those without a usable topic, and the clamped ones those whose time lies outside the window |
| `WriterCounters.RunSamplesTell` | server/history.py:185-196 | over every run the catalogue is told of exactly the rows accepted, in order: topic, stamp, at most 200 characters of the value, and whether it changed |
| `WriterCounters.FarOffIsNotedOnce` | server/history.py:226-237 | over every run the event stream has the events noted and one clock event at each robot's first batch from a clock far off; the skew remembered is the last such one |
| `WriterCounters.HeardOfIff` | server/history.py:117-117 | over every run a robot is remembered as heard of exactly if a row of it was recorded and no committed update of last contacts came after it |
| `WriterCounters.TouchForgetsIff` | server/history.py:282-284 | when the update of last contacts commits, a robot is forgotten without having been in it exactly if it was recorded while the update was under way and had not been heard of when it began |
| `WriterCounters.TouchForgets` | server/history.py:282-284 | a run in which that happens |
| `WriterCounters.FailureWaitsForDatabase` | server/history.py:251-300 | a failed store call ends the flush, and until the database answers again nothing more is archived, whatever is recorded and however often a flush is attempted |
| `TelemetryWriters.TelemetryWriter.constructor` | server/history.py:63-103 | an empty writer |
| `TelemetryWriters.TelemetryWriter.Record` | server/history.py:107-117 | a full buffer loses and counts its oldest row |
| `TelemetryWriters.TelemetryWriter.NoteEvent` | server/history.py:239-243 | events are appended, a full deque losing its oldest silently |
| `TelemetryWriters.TelemetryWriter.NoteSkew` | server/history.py:226-237 | the robot's last skew is remembered, and a clock event is noted for the first one only |
| `TelemetryWriters.TelemetryWriter.EnqueueTopic` | server/history.py:185-188 | bounded append of a topic row with its drop count |
| `TelemetryWriters.TelemetryWriter.NoteSample` | server/history.py:190-196 | the catalogue entry counts the sample and moves its stamps |
| `TelemetryWriters.TelemetryWriter.RecordItem` | server/history.py:163-196 | malformed items are dropped and counted, others stamped, stored and noted |
| `TelemetryWriters.TelemetryWriter.RecordTopics` | server/history.py:136-196 | the loop over a batch equals the specified fold |
| `TelemetryWriters.TelemetryWriter.FlushBegin` | server/history.py:251-268 | takes all batches and the catalogue unless there is nothing or no database |
| `TelemetryWriters.TelemetryWriter.StoreDone` | server/history.py:270-284 | a committed stage is counted and the next non-empty stage follows |
| `TelemetryWriters.TelemetryWriter.StoreFailed` | server/history.py:285-297 | a failed stage re-queues all batches and overwrites catalogue entries |
| `Calendar.DateOrder` | server/db.py:276-276 | dates are ordered as their days are |
| `Calendar.DayNumberOf` | server/db.py:276-276 | the date n days after the epoch is day n of the Gregorian calendar, counted in closed form |
| `Calendar.StampRoundTrip` | server/db.py:271-273 | `%Y%m%d` spells a date that is read back from it |
| `Calendar.StampOrder` | server/db.py:231-233 | the string order of eight-digit stamps is date order |
| `StringOrder.LessTotal` | agent/itri_agent/recorder.py:139-140 | names are totally ordered |
| `Retention.SweepKeepsIff` | server/db.py:259-292 | from any tables that came to be, a retention run keeps exactly the rows of the last `retention_days` days, in daily and default partitions alike |
| `Retention.SweepDropsIff` | server/db.py:271-278 | a retention run drops exactly the daily partitions named by an existing date more than `retention_days` before today; one whose name spells no date stays |
| `Retention.MaintenanceKeepsIff` | server/history.py:322-326 | a maintenance cycle removes a row exactly if it is expired and the partition upkeep before it was not refused |
| `Retention.BlockedCyclesRemoveNothing` | server/history.py:321-332 | one row of a covered day in the default partition, whose day has no partition, stops every cycle until its day has passed: nothing is removed |
| `Retention.EarlyRowBlocks` | server/db.py:157-171 | a row that arrives before its day has a partition is such a row |
| `Retention.RowSurvives` | server/db.py:259-292 | a row survives every run of inserts, upkeep and retention before ts + retention_days |
| `Retention.GoneStaysGone` | server/db.py:259-292 | a removed row never comes back |
| `Retention.TopicRowLifetime` | server/history.py:198-224 | from any tables that came to be, a topic row received at r survives retention at T < ts + retention_days; at T >= r + max_future + (retention_days + 1) days a retention run removes it, and a maintenance cycle does iff its upkeep was not refused; it does not come back |
| `Retention.InsertedIsThere` | server/db.py:259-292 | an inserted row is in one of the partitions of its table |
| `Retention.InsertedRowSurvives` | server/db.py:259-292 | from its insertion on, whatever came before, a row survives every run of inserts, upkeep and retention before ts + retention_days |
| `Retention.InsertedTopicRowLifetime` | server/history.py:198-224 | the whole life of a topic row from its insertion: there until ts + retention_days, gone for good after a retention run from r + max_future + (retention_days + 1) days on |
| `Retention.UpkeepKeepsRowsOutOfDefault` | server/db.py:157-176 | after upkeep that was not refused, rows of the covered days stay out of the default partition |
| `Retention.OldestIsEarliestDay` | server/db.py:218-243 | dropping the least stamp removes exactly the rows of the earliest managed day from both tables |
| `Databases.Database.EnsurePartitions` | server/db.py:157-171 | the nested loop makes all missing partitions or, when the default partition blocks one, none |
| `Databases.Database.DropExpired` | server/db.py:259-292 | the loops drop and sweep what the specification says |
| `Databases.Database.Maintain` | server/history.py:322-326 | upkeep, then retention unless upkeep was refused; the disk guard after it is skipped as well |
| `Databases.Database.OldestPartition` | server/db.py:218-234 | None iff only default partitions remain, else the least stamp over both tables |
| `Databases.Database.EmergencyDropOldestDay` | server/db.py:236-257 | exactly that day's partitions go |
| `Wire.EncodeLength` | server/broker.py:30-39 | the loop writes the base-128 representation of section 2.2.3 of MQTT 3.1.1 |
| `Wire.ReadPacket` | server/broker.py:188-201 | the reading loop is the specified decoder: packet, incomplete or malformed |
| `Wire.LengthReadIff` | server/broker.py:188-199 | a written length is read back, whatever follows, exactly when it is below 128^4 |
| `Wire.ParseInverts` | server/broker.py:294-303 | parsing a written PUBLISH returns topic, payload, QoS, retain flag and packet id |
| `Wire.PacketRead` | server/broker.py:382-388 | a written packet is read back whatever follows it |
| `Wire.PublishBytes` | server/broker.py:382-388 | the bytes of one PUBLISH as section 3.3 of MQTT 3.1.1 lays them out |
| `Wire.StreamRoundTrip` | server/broker.py:382-388 | any concatenation of written packets is read back exactly, with no byte left |
| `Wire.PacketCut` | server/broker.py:188-201 | a stream cut inside a packet is never read as a packet |
| `Wire.BrokenStream` | server/broker.py:188-201 | a connection broken inside a packet delivers exactly the packets before it |
| `Wire.IdsCycle` | server/broker.py:79-81 | packet ids are in 1..65535 and distinct within 65535 deliveries |
| `Wire.ParseSubscribe` | server/broker.py:320-328 | the loop reads the filters in order, or fails where the source runs off the body |
| `Wire.SubscribeRoundTrip` | server/broker.py:325-328 | a well-formed SUBSCRIBE gives its filters in order with QoS capped at 1 |
| `Broker.RetainedIsLast` | server/broker.py:362-369 | over every run the retained message of a topic is the last retained one published, an empty one clearing it; no topic twice (section 3.3.1.3 of MQTT 3.1.1) |
| `Broker.GrantsAreLast` | server/broker.py:320-357 | over every run a connection holds each filter once, at the QoS its packets last had granted |
| `Broker.WantsIsHighest` | server/broker.py:83-89 | `wants` is the highest granted QoS among matching filters, None iff none matches |
| `Broker.StepDelivers` | server/broker.py:362-373 | a message reaches each connection with a matching grant once, at min(QoS, highest grant), and nobody else |
| `Broker.ReceivesExactlyMatching` | server/broker.py:362-373 | over every run a client with unchanged subscriptions receives exactly the matching messages, once each, in publish order (section 4.6 of MQTT 3.1.1) |
| `Broker.CodesAre` | server/broker.py:323-342 | SUBACK has one code per filter in order, 0x80 iff denied (section 3.9.3 of MQTT 3.1.1) |
| `Broker.SubscribeWrites` | server/broker.py:341-349 | a SUBSCRIBE writes one SUBACK, then the replay, nothing else |
| `Broker.ReplayOnce` | server/broker.py:344-349 | exactly the retained topics matching a newly granted filter are replayed, each once |
| `Broker.FirstMatchIs` | server/broker.py:346-349 | replay uses the first matching new filter |
| `Broker.RunNumbered` | server/broker.py:382-388 | over every run a connection's packet ids count up from 1 and wrap at 65535 |
| `Broker.IdsDistinct` | server/broker.py:79-81 | none is 0 and none repeats within 65535 |
| `Answers.RunAnswers` | server/broker.py:304-358 | over every run a connection has been written exactly the answers its packets asked for, in order: PUBACK at QoS 1, PUBREC at QoS 2, SUBACK, UNSUBACK |
| `Answers.SubscribeReplays` | server/broker.py:320-349 | over every run a SUBSCRIBE is sent exactly the retained messages that match one of its filters and are allowed by it, each once, at the least of QoS 1, the QoS they were retained with and that of the first such filter |
| `Broker.BrokenLinkFiresWill` | server/broker.py:176-181 | over every run a breaking connection publishes the will it declared exactly when no write to it has failed since it connected |
| `Broker.EndsOnce` | server/broker.py:176-186 | DISCONNECT and kick publish nothing, no connection publishes its will twice |
| `Broker.KickKeepsOut` | server/broker.py:390-410 | a kick drops every connection of the username and no other, and it stays out until it connects again |
| `MqttBrokers.Session.NextPacketId` | server/broker.py:79-81 | 1..65535, cycling |
| `MqttBrokers.Session.BestGrant` | server/broker.py:83-89 | the loop computes the highest matching grant |
| `MqttBrokers.Session.Send` | server/broker.py:382-388 | one PUBLISH written, with a packet id above QoS 0 |
| `MqttBrokers.MqttBroker.Connect` | server/broker.py:165-169 | a new session without subscriptions |
| `MqttBrokers.MqttBroker.PublishAll` | server/broker.py:362-373 | retained store and every session end as specified |
| `MqttBrokers.MqttBroker.OnPublish` | server/broker.py:294-318 | acknowledged first, then routed at QoS at most 1 if allowed |
| `MqttBrokers.MqttBroker.OnSubscribe` | server/broker.py:320-349 | both loops: grants, SUBACK, replay |
| `MqttBrokers.MqttBroker.OnUnsubscribe` | server/broker.py:351-358 | the filters go, UNSUBACK |
| `MqttBrokers.MqttBroker.Close` | server/broker.py:176-181 | session gone, will published if alive |
| `MqttBrokers.MqttBroker.OnDisconnect` | server/broker.py:282-285 | session gone, no will |
| `MqttBrokers.MqttBroker.OnWriteFailed` | server/broker.py:412-416 | a write that raises marks the session dead and changes nothing else |
| `MqttBrokers.MqttBroker.Kick` | server/broker.py:390-410 | the loop ends in the specified state and counts the sessions |
| `Alerts.Debounced` | server/alerts.py:199-205 | every alert had the condition true at an evaluation at least `for_seconds` earlier and at no evaluation since false |
| `Alerts.FiresExactlyWhenHeld` | server/alerts.py:199-205 | while the condition holds without interruption an alert fires at the first later evaluation `for_seconds` after the first, and not before |
| `Alerts.FiresAlternate` | server/alerts.py:199-216 | fires and resolves balance at every moment, hence alternate |
| `Alerts.BandIsQuiet` | server/alerts.py:133-140 | a number inside [value, clear_value) fires and resolves nothing (dually for gt) |
| `Alerts.FiresAreSeparated` | server/alerts.py:133-140 | between two alerts of a threshold rule the number reached the clearing level or was missing |
| `Alerts.CooldownBounds` | server/alerts.py:206-211 | an alert firing for a time L is notified at most 1 + floor(L / cooldown) times |
| `Alerts.NeverOverdue` | server/alerts.py:206-211 | at every evaluation of a firing alert its last notification is less than one cooldown old |
| `Alerts.RangeHonouredIff` | server/alerts.py:141-144 | an `inside` or `outside` rule judges every number by its configured bounds exactly when the upper bound is not 0 or the lower one is 0 too |
| `Alerts.ZeroUpperBoundCollapses` | server/alerts.py:141-144 | with upper bound 0 either range is evaluated as the single point `value` |
| `Alerts.MinusFiveMisjudged` | server/alerts.py:141-144 | -5 is taken to lie outside the range from -10 to 0 |
| `Alerts.RaisesIff` | server/alerts.py:133-145 | an evaluation raises exactly when a number meets a threshold rule without its number and, for lt and gt while firing, without a clearing level |
| `AlertConditions.FiresWhenNoticed` | server/alerts.py:113-145 | for a rule of each kind, in the sample's own terms: if what it is there to notice is so at every evaluation, it fires at the first evaluation `for_seconds` after the first, and not before |
| `AlertConditions.SilentWhenNotNoticed` | server/alerts.py:113-145 | if it is not so at any evaluation, nothing fires |
| `AlertConditions.ResolvesWhenOver` | server/alerts.py:133-140 | an alert resolves at the first evaluation at which its clearing level is reached or its number missing or, without such a level, what it noticed is gone; not before |
| `AlertConditions.RepeatsWhenDue` | server/alerts.py:206-211 | a firing alert is notified again exactly when a cooldown is set and has passed since the last notification |
| `AlertEngines.AlertEngine.Tick` | server/alerts.py:182-216 | the loops over rules and robots equal the specified tick, up to the evaluation that raises |
| `AlertEngines.AlertEngine.TickRule` | server/alerts.py:192-216 | one rule over the robots in its scope |
| `AlertEngines.AlertEngine.Evaluate` | server/alerts.py:193-216 | one evaluation: the state machine and both counters |
| `AlertEngines.NumberlessRuleEndsTick` | server/alerts.py:133-144 | a threshold rule without its number ends the tick at a numeric sample, unless it is an lt or gt rule that is firing with a clearing level: no later rule is evaluated |
| `AlertEngines.TickCompletesIff` | server/alerts.py:182-216 | every tick over a rule table evaluates every rule, whatever the samples, robots and states, exactly when every threshold rule of the table has its number |
| `AlertEngines.RunBalanced` | server/alerts.py:220-243 | at every tick end of every run `fired - resolved` is the number of firing states, whatever rules come and go |
| `AlertEngines.PairsAreIndependent` | server/alerts.py:193-194 | each (rule, robot) runs its own machine on its own evaluations |
| `AlertRuns.PairsAreIndependentOverRuns` | server/alerts.py:182-216 | over every run of ticks, rules coming and going, the state of each (rule, robot) is that of its own machine on its own evaluations |
| `AlertRuns.RunLooksTimed` | server/alerts.py:182-196 | a pair is evaluated at most once a tick, so its clock readings are in order over every run |
| `AlertRuns.RunDebounced` | server/alerts.py:199-205 | hence over every run an alert of a pair had its condition true at least `for_seconds` earlier and at no evaluation of that pair since false |
| `AlertRuns.RunAlternates` | server/alerts.py:199-216 | over every run a pair's alerts and resolutions balance against its state in the engine |
| `AlertRuns.RunCooldownBounds` | server/alerts.py:206-211 | over every run a pair firing for a time L without resolution is notified at most 1 + floor(L / cooldown) times |
| `AlertRuns.TickLooksOnce` | server/alerts.py:182-196 | a tick looks at a robot once for each rule about it, at the sample of that moment |
| `AlertRuns.RunFiresWhenNoticed` | server/alerts.py:182-205 | over every run of ticks through which what a rule notices of a robot is so, its alert fires at the first tick `for_seconds` after the first one, and not before |
| `AlertRuns.RunSilentWhenNotNoticed` | server/alerts.py:182-216 | over every run of ticks through which it is not so, there is no alert |
| `AlertRuns.RunLooksNowhereElse` | server/alerts.py:187-191 | over every run a rule never looks at a robot it is not about or that is not there, and leaves no trace of it |
| `Pushers.PusherPushesIff` | server/main.py:330-340 | every iteration of the ticker reaches its push, and with it metrics and credential cache, whatever the state, exactly when every threshold rule has its number |
| `Pushers.NumberlessRuleStopsPushes` | server/main.py:330-349 | as long as a numberless rule looks at a number of some robot, whatever else happens, no dashboard is handed anything |
| `SilenceAlarms.SilenceRaisesAlarm` | server/alerts.py:113-205 | reaper, presence, rule and ticker together, over every run in which nothing more is heard of a robot: the alert of an `offline` rule is firing at the end exactly if two iterations lie `for_seconds` apart, at the first of which the robot had been silent longer than the reaper or the rule allows |
| `SilenceAlarms.BeatShowsSilence` | server/main.py:332-340 | after every iteration of the ticker, whether or not its tick completes, the presence of a robot nothing is heard of follows from its silence, whatever happened meanwhile |
| `PusherTasks.Iterate` | server/main.py:334-340 | reap, tick, and begin the push unless the tick raised |
| `Fleet.ReapOnlyWorsens` | server/main.py:332-334 | over every run online iff presence OK, and whoever a reaper pass reports is not online after it |
| `Fleet.SilenceOnlyWorsens` | server/state.py:157-178 | with nothing but reaper passes presence never improves |
| `Fleet.PresenceFollowsSilence` | server/state.py:157-178 | a robot's presence after a reaper pass follows from the time since it was last heard, whatever happened before or to others |
| `Fleet.ReapTwice` | server/state.py:256-263 | a second pass at the same instant reports and changes nothing |
| `Fleet.LinkIsSilentIff` | server/state.py:248-250 | known before the call: a last will changes `link` without a revision exactly when the robot already stands where the report and its silence put it |
| `Fleet.LinkIsLast` | server/state.py:237-250 | over every run a robot's `link` is what its last will said last |
| `Fleet.SummaryPartitions` | server/state.py:269-280 | online, stale, unknown and offline add up to the total |
| `Fleet.RunOrdered` | server/state.py:228-247 | over every run the robots are listed in order of first contact, each once, and no other |
| `Fleet.ReapReports` | server/state.py:256-263 | over every run a reaper pass reports, in order of first contact, exactly the robots whose presence it changes, and gives those a new revision and no other |
| `Fleet.BrokenLinkIsOffline` | server/state.py:157-178 | from a last will until the robot is heard again or its link said to be up it is OFFLINE and not online, whatever the others do |
| `Fleet.NeverHeard` | server/state.py:157-178 | over every run a robot no message came from is UNKNOWN while its last will said online last, OFFLINE while it said offline, with nothing received |
| `Fleet.FirstLink` | server/state.py:237-250 | a first contact by last will comes last in the order; "offline" is a change to be shown, "online" is none |
| `Fleet.SummaryCounts` | server/state.py:269-280 | over every run the summary counts each robot once, under the presence it has |
| `FleetStates.Robot.Update` | server/state.py:131-136 | last_seen, presence, online, rx_count and rev move together |
| `FleetStates.Robot.SetPresence` | server/state.py:145-152 | reports and counts a revision exactly on change |
| `FleetStates.Robot.Evaluate` | server/state.py:157-178 | the decision ladder, broken link first |
| `FleetStates.Robot.SetLink` | server/state.py:248-250 | link and its time are stored, then presence is evaluated |
| `FleetStates.FleetState.Ingest` | server/state.py:228-235 | an unknown robot is added, then updated |
| `FleetStates.FleetState.SetLink` | server/state.py:237-250 | an unknown robot is added, then its link set |
| `FleetStates.FleetState.Reap` | server/state.py:256-263 | every robot evaluated, the changed ids reported in order |
| `FleetStates.FleetState.Summary` | server/state.py:269-280 | counts by presence, partitioning the total |
| `Hub.RevisionsCount` | server/state.py:131-152 | an event raises a revision by at most one, and shows nothing new without raising it |
| `Hub.RecordsAreGenuine` | server/main.py:256-296 | in every reachable state, whatever changes during joins and sends, what a socket was handed is what the robots showed at the revisions it carries, and a client is credited only with revisions that existed |
| `Hub.MissEndsIff` | server/main.py:284-296 | a robot a client misses stays missed until a push hands that client a record of it, and only the end of its join makes a client miss a robot |
| `Hub.PushBringsAgreement` | server/main.py:278-296 | after a push without state change every connected client shows a robot as it is, link and age aside, exactly when it does not miss it |
| `Hub.JoinMissesIff` | server/main.py:256-264 | a client that has joined misses exactly the robots whose current revision its socket was not handed last, by the snapshot or by a push during the join |
| `Hub.ChangeDuringJoinIsMissed` | server/main.py:256-264 | a robot that changes while the snapshot is being sent, with no push before the join ends, is missed |
| `Hub.CalmJoinMissesNothing` | server/main.py:256-264 | a join during which no robot changes leaves nothing missed |
| `Hub.ShownJoinMissesNothing` | server/main.py:256-296 | nor does one whose socket a push brought up to date |
| `Hub.HandedIsExact` | server/main.py:283-289 | a pushed record carries the link of that moment |
| `Hub.LinkShownIff` | server/state.py:248-250 | until the next record of the robot is pushed, its shown link is the live one exactly while its last will says the same |
| `Hub.SilentLinkIsNotPushed` | server/state.py:248-250 | a link change without a revision is never pushed |
| `Dashboards.PushTells` | server/main.py:278-296 | field by field: after a push during which no robot changed, a client that does not miss a robot has its payload, presence, online flag, time of last contact, message count and revision |
| `Dashboards.SnapshotTells` | server/state.py:184-205 | so has a joining client of every robot, link included, and of no other |
| `Dashboards.HandedTells` | server/main.py:283-289 | and so has a client of every record a push hands it, link included |
| `Dashboards.JoiningIsHandedAll` | server/main.py:256-264 | the first push that comes to a client while its join is under way hands it every robot, whatever happened since |
| `Dashboards.PushEnds` | server/main.py:278-296 | an undisturbed push ends after one send per client, with every client still there |
| `Dashboards.IngestIsShown` | server/state.py:131-136 | a payload that has come in: after a push each client that does not miss the robot shows it with this payload and time, presence OK and one message more |
| `DashboardHubs.DashboardHub.JoinStart` | server/main.py:256-263 | the client is registered with an empty map before the snapshot is sent |
| `DashboardHubs.DashboardHub.JoinEnd` | server/main.py:264-264 | afterwards the revisions of that moment are noted for every robot |
| `DashboardHubs.DashboardHub.Leave` | server/main.py:266-267 | the client's map goes; a push under way still holds it |
| `DashboardHubs.DashboardHub.PushBegin` | server/main.py:278-283 | the clients present are queued, each with its map |
| `DashboardHubs.DashboardHub.SendStart` | server/main.py:283-289 | the delta is computed from the robots as they are now, even for a client that left; nothing is sent when it is empty |
| `DashboardHubs.DashboardHub.SendEnd` | server/main.py:290-296 | a failed send drops the client, a successful one notes what was sent |
| `Registry.TopicAllowedIff` | server/registry.py:220-235 | publish allowed exactly on `fleet/<username>/<leaf>` for the four leaves, subscribe never |
| `Registry.TokensAreOneTime` | server/registry.py:101-140 | over every run a robot has at most one unused token and no token is redeemed twice |
| `Registry.NewestTokenOnly` | server/registry.py:101-113 | after a token is issued it is the only one its robot can redeem |
| `Registry.UsedStaysUsed` | server/registry.py:123-124 | a used token is refused for good unless its own robot is deleted |
| `Registry.TypedTokenIsFound` | server/registry.py:118-120 | space around a typed token and the case of its letters do not matter |
| `Registry.EnrolledIsAccepted` | server/registry.py:129-140 | after enrolment and a refresh read after it the cache accepts the new secret and no other |
| `Enrolments.KnownIsEarned` | server/registry.py:115-140 | over every run from empty tables a credential the tables, the cache or a refresh under way holds was brought by an enrolment with a token issued for its robot, no later than that token's expiry |
| `Enrolments.AcceptedIsEarned` | server/registry.py:195-207 | and so was every password the cache accepts |
| `Enrolments.ConnectedIsEarned` | server/registry.py:195-207 | and the password of everybody connected |
| `Enrolments.LateEnrolmentIsRefused` | server/registry.py:126-127 | an enrolment after the token's expiry is refused and leaves the tables alone |
| `Enrolments.DeletedStaysOut` | server/registry.py:172-175 | after a deletion and a refresh, with no older refresh holding the credential, no password is accepted for the robot until it is created and a token redeemed again |
| `Enrolments.RobotsAreIndependent` | server/registry.py:91-175 | over every run in which nothing is done about a robot, its credential and its tokens stay what they are, whatever is done about others |
| `Enrolments.DeletedTokensAreUnknown` | server/registry.py:172-175 | a deleted robot's tokens are unknown from then on, until the same text is issued again |
| `Enrolments.CredentialIsKept` | server/registry.py:91-99 | what a robot has been given it keeps over every run that does not revoke, delete or enrol it again, and a refresh then lets it in with nothing else |
| `Enrolments.RevokedIsMarked` | server/registry.py:142-150 | a revoked robot is marked so and has no credential until it is deleted or a token issued after the revocation is redeemed |
| `Registry.RevocationHoldsIff` | server/main.py:1157-1170 | after revoke, refresh and kick, with anything interleaved, the robot stays out until a token issued after the revoke is enrolled, exactly when at the kick no other refresh under way holds rows read before the revoke |
| `Registry.RevocationHolds` | server/main.py:1162-1166 | it does when no refresh was under way at the revoke |
| `Registry.StaleRefreshReopens` | server/registry.py:181-193 | installing such rows after the kick lets the revoked secret connect again |
| `Registry.StaleRefreshRun` | server/main.py:1157-1170 | a run of enrolment, revocation, refresh and kick in which the cache refuses the secret until an earlier refresh installs its rows |
| `Registry.PublishedOnOwnBranchIff` | server/broker.py:313-318 | a client's message is routed exactly when it is on its own branch |
| `RegistryStores.RegistryStore.CreateRobot` | server/registry.py:91-99 | refused for a known robot, else a row and a token |
| `RegistryStores.RegistryStore.IssueToken` | server/registry.py:101-113 | outstanding tokens spent, a fresh one added |
| `RegistryStores.RegistryStore.Enroll` | server/registry.py:115-140 | the typed token, trimmed and in capitals, is unknown, used, expired, or redeemed |
| `RegistryStores.RegistryStore.Revoke` | server/registry.py:142-150 | credential and outstanding tokens gone |
| `RegistryStores.RegistryStore.Delete` | server/registry.py:172-175 | row and tokens gone |
| `RegistryStores.RegistryStore.FetchRows` | server/registry.py:182-184 | a refresh first reads the table |
| `RegistryStores.RegistryStore.InstallRows` | server/registry.py:185-186 | and later replaces the cache by what it read |
| `RegistryStores.RegistryStore.VerifyCached` | server/registry.py:195-207 | decided by the cache alone |
| `Recordings.PrunesShortestPrefix` | agent/itri_agent/recorder.py:137-160 | pruning deletes the shortest name-ordered prefix that reaches `max_bytes` |
| `Recordings.PruneStops` | agent/itri_agent/recorder.py:151-160 | with undeletable files it ends within the limit or with only those left |
| `Recordings.DiskIsBounded` | agent/itri_agent/recorder.py:75-105 | over every run the directory stays within max(initial, max_bytes) + rotate_bytes between samples |
| `Recordings.PeakIsBounded` | agent/itri_agent/recorder.py:93-98 | and within one line more while a sample is written |
| `Recordings.BytesAreConserved` | agent/itri_agent/recorder.py:93-105 | over every run each recorded byte is in the directory or was pruned |
| `Recordings.RotationPrunes` | agent/itri_agent/recorder.py:124-127 | after each rotation all files total at most `max_bytes` |
| `Recordings.TakenIff` | agent/itri_agent/recorder.py:75-105 | over every run exactly those samples are taken that come while recording is on and at least the gap after the last one of their topic that was taken |
| `Recordings.TakenAreSpaced` | agent/itri_agent/recorder.py:78-84 | consecutive samples of a topic that are taken are at least the gap apart |
| `Recordings.OffIff` | agent/itri_agent/recorder.py:85-105 | recording is off for good after the first taken sample the disk refused, and not before |
| `Recordings.RefusalLeaves` | agent/itri_agent/recorder.py:89-105 | a sample the disk refuses leaves the directory as it was, but for an empty file if one was made for it |
| `Recorders.Recorder.Write` | agent/itri_agent/recorder.py:75-105 | throttle, open, write, rotate; recording is disabled when the file cannot be opened or, leaving it empty or as it was, when the line cannot be written |
| `Recorders.Recorder.FreshName` | agent/itri_agent/recorder.py:115-119 | the first candidate name no file has; the loop ends |
| `Recorders.Recorder.Prune` | agent/itri_agent/recorder.py:137-160 | the loop deletes what the specification says |

## Left out

- Dashboard `status` messages of the agent and the fields a status payload carries: one opaque value per robot.
- Events that `TelemetryWriter.record` derives from state and error transitions: arbitrary events instead.
- Columns of telemetry and topic rows beyond identity, times, value text and flag.
- A maintenance cycle's disk guard and its waiting times; `reconnect`, which a refused upkeep makes fail too, is the arbitrary outcome a flush is begun with.
- What happens while a tick of the alert engine waits for a notification or the rule table.
- Flush order between two writers' clocks, `last_flush_ms`, `flush_failures` and log lines.
- A flush cancelled at shutdown: `CancelledError` bypasses the handler and the batch in hand is lost.
- paho delivering a publish whose return code reported an error: a failing code is taken as not on the wire.
- Rows still buffered when an agent process ends.
- Reconnect back-off, connection pool, SQL text and the disk-usage thresholds that trigger the emergency drop.
- Partition children whose name is not the parent's name and a stamp.
- The internal state of QoS 2 exchanges (PUBREL, PUBCOMP), keepalive timers and the CONNECT packet's own parsing.
- Broker topics of 2^16 bytes or more, which only an invalid UTF-8 sequence can produce: encoding them fails.
- A kicked session may still handle one packet it had already read.
- `int(seq)` of a sequence number that is not a number, which raises in the router.
- The router's handling of `lwt` and well-formed `status` topics and the presence callback: `Fleet` has the state changes they make.
- `Router.RunFollowsDedup`: over the arrivals of samples; malformed status payloads raise the same `dropped` counter, as `Router.TelemetryRouter.Handle` says.
- `Registry.TypedTokenIsFound`: space and letters of ASCII only.
- `Recorders.Recorder.Write`: the part of a line that reaches the disk when its write fails.
- In-process subscribers of the broker and its counters.
- `Broker.ReceivesExactlyMatching`: stated for unchanged subscriptions (`Broker.StepDelivers` covers changing ones step by step); frames handed to a write that fails count as written, here and in the other delivery results.
- `Hub.RecordsAreGenuine`: what the server handed to a socket, in that order; whether the browser received it is not part of the model.
- Message templates, notification channels, the alerts table and open-alert listing.
- `Recordings.DiskIsBounded`: uncompressed files, every unlink succeeding, one life of a recorder; restarting it starts from a new initial size.
- Any claim about the topics of wills: the source publishes them without the topic check, and `Registry.PublishedOnOwnBranchIff` is about PUBLISH packets.
- The cache's age limit and failed refreshes: a refresh is an event that may or may not happen.
- Float rounding and NaN; web pages, routes, login, push senders, simulators and setup tools.
