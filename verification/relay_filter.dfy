/** The agent's uplink filter: rate limit, change detection, deadband and heartbeat
    (`Bridge.offer` and `_same`). */
module RelayFilter {
  import opened Options
  import opened Topics

  /** What a source can publish, as far as `_same` tells values apart. */
  datatype Value = Num(n: real) | Bool(b: bool) | Text(s: string)

  datatype Config = Config(
    wanted: seq<string>,
    unwanted: seq<string>,
    maxRateHz: real,
    deadband: real,
    onChangeOnly: bool,
    heartbeat: real)

  /** FLAG_CHANGE and FLAG_HEARTBEAT. */
  datatype Flag = Change | Heartbeat

  datatype Row = Row(topic: string, time: real, value: Value, flag: Flag)

  function Magnitude(x: real): real {
    if x < 0.0 then -x else x
  }

  /** Python's `==`, under which True equals 1 and False equals 0. */
  predicate Equal(a: Value, b: Value) {
    match (a, b)
    case (Num(x), Bool(y)) => x == (if y then 1.0 else 0.0)
    case (Bool(x), Num(y)) => y == (if x then 1.0 else 0.0)
    case _ => a == b
  }

  predicate Same(a: Value, b: Value, deadband: real) {
    if a.Num? && b.Num? then Magnitude(a.n - b.n) <= deadband else Equal(a, b)
  }

  function MinGap(cfg: Config): (gap: real)
    ensures gap > 0.0
  {
    1.0 / (if cfg.maxRateHz < 0.001 then 0.001 else cfg.maxRateHz)
  }

  /** The per-topic clocks: value last relayed, when it last differed, when the source last produced,
      when the topic was last put on the wire. */
  datatype Clocks = Clocks(
    last: map<string, Value>,
    changedAt: map<string, real>,
    seenAt: map<string, real>,
    sentAt: map<string, real>)

  datatype Decision = Excluded | RateSkipped | SameSkipped | Relay(flag: Flag)

  function SentAt(c: Clocks, topic: string): real {
    if topic in c.sentAt then c.sentAt[topic] else 0.0
  }

  predicate Unchanged(cfg: Config, c: Clocks, topic: string, value: Value) {
    topic in c.last && Same(c.last[topic], value, cfg.deadband)
  }

  function Decide(cfg: Config, c: Clocks, topic: string, now: real, value: Value): Decision {
    if !ShouldRelay(topic, cfg.wanted, cfg.unwanted) then Excluded
    else if now - SentAt(c, topic) < MinGap(cfg) then RateSkipped
    else if !Unchanged(cfg, c, topic, value) || !cfg.onChangeOnly then Relay(Change)
    else if cfg.heartbeat != 0.0 && now - SentAt(c, topic) >= cfg.heartbeat then Relay(Heartbeat)
    else SameSkipped
  }

  function Advance(cfg: Config, c: Clocks, topic: string, now: real, value: Value): Clocks {
    var d := Decide(cfg, c, topic, now, value);
    if d.Excluded? then c else
    var seen := c.(seenAt := c.seenAt[topic := now]);
    if !d.Relay? then seen else
    seen.(last := c.last[topic := value],
          sentAt := c.sentAt[topic := now],
          changedAt := if Unchanged(cfg, c, topic, value) then c.changedAt else c.changedAt[topic := now])
  }

  // ---------------------------------------------------------------- runs

  datatype Offer = Offer(topic: string, now: real, value: Value)

  /** The clocks together with every row relayed so far. */
  datatype Filter = Filter(clocks: Clocks, rows: seq<Row>)

  const START := Filter(Clocks(map[], map[], map[], map[]), [])

  function Step(cfg: Config, f: Filter, o: Offer): Filter {
    var d := Decide(cfg, f.clocks, o.topic, o.now, o.value);
    Filter(Advance(cfg, f.clocks, o.topic, o.now, o.value),
           if d.Relay? then f.rows + [Row(o.topic, o.now, o.value, d.flag)] else f.rows)
  }

  function Run(cfg: Config, f: Filter, offers: seq<Offer>): Filter
    decreases |offers|
  {
    if offers == [] then f else Run(cfg, Step(cfg, f, offers[0]), offers[1..])
  }

  /** The newest relayed row of a topic. */
  function LastRow(rows: seq<Row>, topic: string): Option<Row> {
    if rows == [] then None
    else if rows[|rows| - 1].topic == topic then Some(rows[|rows| - 1])
    else LastRow(rows[..|rows| - 1], topic)
  }

  /** The clocks remember exactly the newest relayed row of every topic. */
  ghost predicate Agrees(f: Filter) {
    && (forall t :: t in f.clocks.last <==> t in f.clocks.sentAt)
    && (forall t :: t in f.clocks.sentAt <==> LastRow(f.rows, t).Some?)
    && (forall t :: t in f.clocks.sentAt ==>
          LastRow(f.rows, t).Some? &&
          var r := LastRow(f.rows, t).value;
          r.topic == t && r.time == f.clocks.sentAt[t] && r.value == f.clocks.last[t])
  }

  lemma {:induction false} LastRowSnoc(rows: seq<Row>, r: Row, topic: string)
    ensures LastRow(rows + [r], topic) == if r.topic == topic then Some(r) else LastRow(rows, topic)
  {
    assert (rows + [r])[..|rows|] == rows;
  }

  lemma {:induction false} StepAgrees(cfg: Config, f: Filter, o: Offer)
    requires Agrees(f)
    ensures Agrees(Step(cfg, f, o))
  {
    var f' := Step(cfg, f, o);
    var d := Decide(cfg, f.clocks, o.topic, o.now, o.value);
    if d.Relay? {
      var r := Row(o.topic, o.now, o.value, d.flag);
      forall t ensures LastRow(f'.rows, t) == if t == o.topic then Some(r) else LastRow(f.rows, t) {
        LastRowSnoc(f.rows, r, t);
      }
    }
  }

  lemma {:induction false} RunAgrees(cfg: Config, f: Filter, offers: seq<Offer>)
    requires Agrees(f)
    ensures Agrees(Run(cfg, f, offers))
    decreases |offers|
  {
    if offers != [] {
      StepAgrees(cfg, f, offers[0]);
      RunAgrees(cfg, Step(cfg, f, offers[0]), offers[1..]);
    }
  }

  // ---------------------------------------------------------------- spacing

  /** `i` and `j` are consecutive relayed rows of one topic. */
  predicate Consecutive(rows: seq<Row>, i: nat, j: nat) {
    && i < j < |rows|
    && rows[i].topic == rows[j].topic
    && forall k :: i < k < j ==> rows[k].topic != rows[i].topic
  }

  lemma {:induction false} ConsecutiveIsLastRow(rows: seq<Row>, i: nat)
    requires |rows| > 0 && Consecutive(rows, i, |rows| - 1)
    ensures LastRow(rows[..|rows| - 1], rows[i].topic) == Some(rows[i])
  {
    LastRowAt(rows[..|rows| - 1], i);
  }

  lemma {:induction false} LastRowAt(rows: seq<Row>, i: nat)
    requires i < |rows|
    requires forall k :: i < k < |rows| ==> rows[k].topic != rows[i].topic
    ensures LastRow(rows, rows[i].topic) == Some(rows[i])
    decreases |rows|
  {
    if i < |rows| - 1 {
      LastRowAt(rows[..|rows| - 1], i);
    }
  }

  ghost predicate Spaced(cfg: Config, rows: seq<Row>) {
    forall i: nat, j: nat :: Consecutive(rows, i, j) ==> rows[j].time - rows[i].time >= MinGap(cfg)
  }

  /** A heartbeat row repeats, within the deadband, the value of the row before it, and is late enough. */
  ghost predicate HeartbeatsRepeat(cfg: Config, rows: seq<Row>) {
    forall i: nat, j: nat :: Consecutive(rows, i, j) && rows[j].flag == Heartbeat ==>
      Same(rows[i].value, rows[j].value, cfg.deadband) && rows[j].time - rows[i].time >= cfg.heartbeat
  }

  /** When only changes are relayed, a row flagged as a change differs from the one before it. */
  ghost predicate ChangesDiffer(cfg: Config, rows: seq<Row>) {
    forall i: nat, j: nat :: Consecutive(rows, i, j) && rows[j].flag == Change && cfg.onChangeOnly ==>
      !Same(rows[i].value, rows[j].value, cfg.deadband)
  }

  ghost predicate Honest(cfg: Config, rows: seq<Row>) {
    Spaced(cfg, rows) && HeartbeatsRepeat(cfg, rows) && ChangesDiffer(cfg, rows)
  }

  /** What the row before a newly relayed one looked like. */
  lemma {:induction false} PreviousRow(cfg: Config, f: Filter, o: Offer, i: nat)
    requires Agrees(f)
    requires Decide(cfg, f.clocks, o.topic, o.now, o.value).Relay?
    requires Consecutive(Step(cfg, f, o).rows, i, |f.rows|)
    ensures i < |f.rows| && o.topic in f.clocks.sentAt && o.topic in f.clocks.last
    ensures f.rows[i].time == f.clocks.sentAt[o.topic] && f.rows[i].value == f.clocks.last[o.topic]
  {
    var rows := Step(cfg, f, o).rows;
    assert rows[..|rows| - 1] == f.rows;
    ConsecutiveIsLastRow(rows, i);
  }

  lemma {:induction false} NewRowHonest(cfg: Config, f: Filter, o: Offer, i: nat)
    requires Agrees(f)
    requires Decide(cfg, f.clocks, o.topic, o.now, o.value).Relay?
    requires Consecutive(Step(cfg, f, o).rows, i, |f.rows|)
    ensures var rows := Step(cfg, f, o).rows;
            var j := |f.rows|;
            && rows[j].time - rows[i].time >= MinGap(cfg)
            && (rows[j].flag == Heartbeat ==>
                  Same(rows[i].value, rows[j].value, cfg.deadband) && rows[j].time - rows[i].time >= cfg.heartbeat)
            && (rows[j].flag == Change && cfg.onChangeOnly ==> !Same(rows[i].value, rows[j].value, cfg.deadband))
  {
    PreviousRow(cfg, f, o, i);
    assert Step(cfg, f, o).rows[i] == f.rows[i];
  }

  lemma {:induction false} StepHonest(cfg: Config, f: Filter, o: Offer)
    requires Agrees(f) && Honest(cfg, f.rows)
    ensures Honest(cfg, Step(cfg, f, o).rows)
  {
    var rows := Step(cfg, f, o).rows;
    if Decide(cfg, f.clocks, o.topic, o.now, o.value).Relay? {
      forall i: nat, j: nat | Consecutive(rows, i, j)
        ensures if j < |f.rows| then Consecutive(f.rows, i, j) && rows[i] == f.rows[i] && rows[j] == f.rows[j]
                else j == |f.rows| && Consecutive(rows, i, |f.rows|)
      {
        if j < |f.rows| {
          assert forall k :: 0 <= k <= j ==> rows[k] == f.rows[k];
        }
      }
      forall i: nat | Consecutive(rows, i, |f.rows|)
        ensures rows[|f.rows|].time - rows[i].time >= MinGap(cfg)
        ensures rows[|f.rows|].flag == Heartbeat ==>
                  Same(rows[i].value, rows[|f.rows|].value, cfg.deadband)
                  && rows[|f.rows|].time - rows[i].time >= cfg.heartbeat
        ensures rows[|f.rows|].flag == Change && cfg.onChangeOnly ==>
                  !Same(rows[i].value, rows[|f.rows|].value, cfg.deadband)
      {
        NewRowHonest(cfg, f, o, i);
      }
    }
  }

  /** Over every run of offers: relayed rows of a topic are at least one rate period apart, and the flag
      says truthfully whether the value moved. */
  lemma {:induction false} RunHonest(cfg: Config, f: Filter, offers: seq<Offer>)
    requires Agrees(f) && Honest(cfg, f.rows)
    ensures Honest(cfg, Run(cfg, f, offers).rows)
    decreases |offers|
  {
    if offers != [] {
      StepAgrees(cfg, f, offers[0]);
      StepHonest(cfg, f, offers[0]);
      RunHonest(cfg, Step(cfg, f, offers[0]), offers[1..]);
    }
  }

  // ---------------------------------------------------------------- liveness

  /** The source offers `topic` in nondecreasing time, with gaps of at most `g`. */
  ghost predicate Steady(cfg: Config, f: Filter, offers: seq<Offer>, topic: string, g: real)
    decreases |offers|
  {
    offers != [] ==>
      && (offers[0].topic == topic && topic in f.clocks.seenAt ==>
            0.0 <= offers[0].now - f.clocks.seenAt[topic] <= g)
      && Steady(cfg, Step(cfg, f, offers[0]), offers[1..], topic, g)
  }

  function Quiet(cfg: Config): real {
    if cfg.heartbeat < MinGap(cfg) then MinGap(cfg) else cfg.heartbeat
  }

  /** Between offers no topic has been silent on the wire for as long as `Quiet`. */
  ghost predicate Fresh(cfg: Config, f: Filter, topic: string) {
    && Agrees(f)
    && (topic in f.clocks.sentAt ==>
          topic in f.clocks.seenAt && f.clocks.seenAt[topic] - f.clocks.sentAt[topic] < Quiet(cfg))
  }

  ghost predicate GapsBelow(rows: seq<Row>, topic: string, bound: real) {
    forall i: nat, j: nat :: Consecutive(rows, i, j) && rows[i].topic == topic ==> rows[j].time - rows[i].time < bound
  }

  lemma {:induction false} StepLive(cfg: Config, f: Filter, o: Offer, topic: string, g: real)
    requires cfg.heartbeat > 0.0
    requires Fresh(cfg, f, topic) && GapsBelow(f.rows, topic, Quiet(cfg) + g)
    requires o.topic == topic && topic in f.clocks.seenAt ==> 0.0 <= o.now - f.clocks.seenAt[topic] <= g
    ensures Fresh(cfg, Step(cfg, f, o), topic)
    ensures GapsBelow(Step(cfg, f, o).rows, topic, Quiet(cfg) + g)
  {
    var rows := Step(cfg, f, o).rows;
    StepAgrees(cfg, f, o);
    if rows != f.rows {
      forall i: nat, j: nat | Consecutive(rows, i, j) && rows[i].topic == topic
        ensures rows[j].time - rows[i].time < Quiet(cfg) + g
      {
        if j < |f.rows| {
          assert Consecutive(f.rows, i, j);
        } else {
          assert rows[..|rows| - 1] == f.rows;
          ConsecutiveIsLastRow(rows, i);
        }
      }
    }
  }

  /** A steady source is never silent on the wire for long: consecutive relayed rows are less than
      max(heartbeat, rate period) + g apart. */
  lemma {:induction false} HeartbeatLiveness(cfg: Config, f: Filter, offers: seq<Offer>, topic: string, g: real)
    requires cfg.heartbeat > 0.0
    requires Fresh(cfg, f, topic) && GapsBelow(f.rows, topic, Quiet(cfg) + g)
    requires Steady(cfg, f, offers, topic, g)
    ensures Fresh(cfg, Run(cfg, f, offers), topic)
    ensures GapsBelow(Run(cfg, f, offers).rows, topic, Quiet(cfg) + g)
    decreases |offers|
  {
    if offers != [] {
      StepLive(cfg, f, offers[0], topic, g);
      HeartbeatLiveness(cfg, Step(cfg, f, offers[0]), offers[1..], topic, g);
    }
  }

  // ---------------------------------------------------------------- error bound

  /** What the server last heard is within the deadband of what the source last offered, unless the offer
      came too soon after the previous row. */
  lemma {:induction false} ErrorBound(cfg: Config, offers: seq<Offer>, o: Offer)
    requires cfg.deadband >= 0.0
    requires ShouldRelay(o.topic, cfg.wanted, cfg.unwanted)
    ensures var f := Run(cfg, START, offers);
            var heard := LastRow(Step(cfg, f, o).rows, o.topic);
            !Decide(cfg, f.clocks, o.topic, o.now, o.value).RateSkipped? ==>
              heard.Some? && Same(heard.value.value, o.value, cfg.deadband)
  {
    RunAgrees(cfg, START, offers);
    StepAgrees(cfg, Run(cfg, START, offers), o);
  }

  /** One topic's decisions do not depend on any other topic's traffic. */
  lemma {:induction false} TopicsAreIndependent(cfg: Config, c: Clocks, o: Offer, p: Offer)
    requires o.topic != p.topic
    ensures Decide(cfg, Advance(cfg, c, o.topic, o.now, o.value), p.topic, p.now, p.value)
         == Decide(cfg, c, p.topic, p.now, p.value)
  {
    assert SentAt(Advance(cfg, c, o.topic, o.now, o.value), p.topic) == SentAt(c, p.topic);
  }
}
