/** What the uplink filter relays, in numbers: nothing here is stated through the filter's own notion of sameness or
    its decision. */
module RelayNumbers {
  import opened Options
  import opened RelayFilter
  import opened Topics

  /** A value as Python compares it: True is 1 and False is 0. */
  function AsNumber(v: Value): Option<real> {
    match v
    case Num(n) => Some(n)
    case Bool(b) => Some(if b then 1.0 else 0.0)
    case Text(_) => None
  }

  /** Two numbers more than `deadband` apart; two other values that are not equal. */
  predicate Differ(a: Value, b: Value, deadband: real) {
    if a.Num? && b.Num? then a.n - b.n > deadband || b.n - a.n > deadband
    else if a.Text? && b.Text? then a.s != b.s
    else AsNumber(a) != AsNumber(b)
  }

  lemma {:induction false} SameIsNotDiffer(a: Value, b: Value, deadband: real)
    ensures Same(a, b, deadband) <==> !Differ(a, b, deadband)
  {
  }

  /** No excluded filter matches the topic, and one of the included ones does if there are any. */
  predicate Admitted(cfg: Config, topic: string) {
    && (forall f :: f in cfg.unwanted ==> !AgentMatches(f, topic))
    && (cfg.wanted != [] ==> exists f :: f in cfg.wanted && AgentMatches(f, topic))
  }

  /** When a topic was last relayed, 0 for never. */
  function LastTime(rows: seq<Row>, topic: string): real {
    if LastRow(rows, topic).Some? then LastRow(rows, topic).value.time else 0.0
  }

  /** The period of the highest rate, at most 1000 s. */
  function Period(cfg: Config): real {
    if cfg.maxRateHz < 0.001 then 1000.0 else 1.0 / cfg.maxRateHz
  }

  /** At least one period has passed since the topic was last relayed. */
  predicate LateEnough(cfg: Config, rows: seq<Row>, o: Offer) {
    o.now - LastTime(rows, o.topic) >= Period(cfg)
  }

  predicate Moved(cfg: Config, rows: seq<Row>, o: Offer) {
    LastRow(rows, o.topic).None? || Differ(LastRow(rows, o.topic).value.value, o.value, cfg.deadband)
  }

  predicate HeartbeatDue(cfg: Config, rows: seq<Row>, o: Offer) {
    cfg.heartbeat != 0.0 && o.now - LastTime(rows, o.topic) >= cfg.heartbeat
  }

  lemma {:induction false} MinGapIs(cfg: Config)
    ensures MinGap(cfg) == Period(cfg)
  {
  }

  /** Exactly which offers of a run are relayed, and under which flag, in terms of the rows relayed before. */
  lemma {:induction false} RelayedIff(cfg: Config, offers: seq<Offer>, o: Offer)
    ensures var rows, rows' := Run(cfg, START, offers).rows, Step(cfg, Run(cfg, START, offers), o).rows;
            if Admitted(cfg, o.topic) && LateEnough(cfg, rows, o)
               && (Moved(cfg, rows, o) || !cfg.onChangeOnly || HeartbeatDue(cfg, rows, o)) then
              rows' == rows + [Row(o.topic, o.now, o.value,
                                   if Moved(cfg, rows, o) || !cfg.onChangeOnly then Change else Heartbeat)]
            else rows' == rows
  {
    var f := Run(cfg, START, offers);
    RunAgrees(cfg, START, offers);
    MinGapIs(cfg);
    assert SentAt(f.clocks, o.topic) == LastTime(f.rows, o.topic);
    if o.topic in f.clocks.last {
      SameIsNotDiffer(f.clocks.last[o.topic], o.value, cfg.deadband);
    }
    hide Run, MinGap, Period, Same, Differ, AgentMatches;
  }

  /** After every offer of an admitted topic that is late enough, what was last relayed is within the deadband of what
      was offered: in numbers if both are, and equal otherwise. */
  lemma {:induction false} ErrorBoundInNumbers(cfg: Config, offers: seq<Offer>, o: Offer)
    requires cfg.deadband >= 0.0 && Admitted(cfg, o.topic)
    requires LateEnough(cfg, Run(cfg, START, offers).rows, o)
    ensures var heard := LastRow(Step(cfg, Run(cfg, START, offers), o).rows, o.topic);
            && heard.Some?
            && var a, b := heard.value.value, o.value;
               if a.Num? && b.Num? then -cfg.deadband <= a.n - b.n <= cfg.deadband
               else if a.Text? && b.Text? then a.s == b.s
               else AsNumber(a) == AsNumber(b)
  {
    RelayedIff(cfg, offers, o);
    hide Run, Step, LateEnough, Admitted, HeartbeatDue;
    var rows := Run(cfg, START, offers).rows;
    var rows' := Step(cfg, Run(cfg, START, offers), o).rows;
    if rows' != rows {
      assert rows'[..|rows'| - 1] == rows;
    }
  }

  /** What two consecutive rows of a topic say of each other. */
  predicate Truthful(cfg: Config, first: Row, next: Row) {
    && next.time - first.time >= Period(cfg)
    && (next.flag == Heartbeat ==>
          !Differ(first.value, next.value, cfg.deadband) && next.time - first.time >= cfg.heartbeat)
    && (next.flag == Change && cfg.onChangeOnly ==> Differ(first.value, next.value, cfg.deadband))
  }

  /** Over every run consecutive rows of a topic are at least a rate period apart; a heartbeat repeats a value within
      the deadband after at least the heartbeat time; and a change differs by more than the deadband, one way or the
      other. */
  lemma {:induction false} RunTruthful(cfg: Config, offers: seq<Offer>, i: nat, j: nat)
    requires Consecutive(Run(cfg, START, offers).rows, i, j)
    ensures Truthful(cfg, Run(cfg, START, offers).rows[i], Run(cfg, START, offers).rows[j])
  {
    StartHonest(cfg);
    RunHonest(cfg, START, offers);
    var rows := Run(cfg, START, offers).rows;
    MinGapIs(cfg);
    hide Run, Differ, Same, MinGap, Period;
    SameIsNotDiffer(rows[i].value, rows[j].value, cfg.deadband);
  }

  lemma {:induction false} StartHonest(cfg: Config)
    ensures Agrees(START) && Honest(cfg, START.rows)
  {
  }

  /** Over every run no relayed row is of a topic that is not admitted. */
  lemma {:induction false} RunAdmitted(cfg: Config, f: Filter, offers: seq<Offer>)
    requires forall r :: r in f.rows ==> Admitted(cfg, r.topic)
    ensures forall r :: r in Run(cfg, f, offers).rows ==> Admitted(cfg, r.topic)
    decreases |offers|
  {
    hide Same, MinGap, AgentMatches, Unchanged;
    if offers != [] {
      RunAdmitted(cfg, Step(cfg, f, offers[0]), offers[1..]);
    }
  }

  // ---------------------------------------------------------------- the other clocks

  /** When an admitted topic was last offered, relayed or not. */
  function LastOffered(cfg: Config, offers: seq<Offer>, topic: string, before: Option<real>): Option<real> {
    if offers == [] then before
    else
      var o := offers[0];
      LastOffered(cfg, offers[1..], topic, if o.topic == topic && Admitted(cfg, topic) then Some(o.now) else before)
  }

  /** The time of a topic's newest row that differs from the row before it, or is the first. */
  function LastMove(cfg: Config, rows: seq<Row>, topic: string): Option<real> {
    if rows == [] then None
    else
      var most, last := rows[..|rows| - 1], rows[|rows| - 1];
      if last.topic == topic &&
         (LastRow(most, topic).None? || Differ(LastRow(most, topic).value.value, last.value, cfg.deadband)) then
        Some(last.time)
      else LastMove(cfg, most, topic)
  }

  predicate AtMap(m: map<string, real>, topic: string, at: Option<real>) {
    if topic in m then at == Some(m[topic]) else at == None
  }

  lemma {:induction false} StepClocks(cfg: Config, f: Filter, o: Offer, topic: string)
    requires Agrees(f) && AtMap(f.clocks.changedAt, topic, LastMove(cfg, f.rows, topic))
    ensures var f', before := Step(cfg, f, o), if topic in f.clocks.seenAt then Some(f.clocks.seenAt[topic]) else None;
            && AtMap(f'.clocks.changedAt, topic, LastMove(cfg, f'.rows, topic))
            && AtMap(f'.clocks.seenAt, topic,
                     if o.topic == topic && Admitted(cfg, topic) then Some(o.now) else before)
  {
    var f' := Step(cfg, f, o);
    if f'.rows != f.rows {
      assert f'.rows[..|f'.rows| - 1] == f.rows;
    }
    if o.topic in f.clocks.last {
      SameIsNotDiffer(f.clocks.last[o.topic], o.value, cfg.deadband);
    }
    hide Same, Differ, MinGap, AgentMatches;
  }

  lemma {:induction false} ClocksFrom(cfg: Config, f: Filter, offers: seq<Offer>, topic: string)
    requires Agrees(f) && AtMap(f.clocks.changedAt, topic, LastMove(cfg, f.rows, topic))
    ensures var f', seen := Run(cfg, f, offers), f.clocks.seenAt;
            && AtMap(f'.clocks.changedAt, topic, LastMove(cfg, f'.rows, topic))
            && AtMap(f'.clocks.seenAt, topic,
                     LastOffered(cfg, offers, topic, if topic in seen then Some(seen[topic]) else None))
    decreases |offers|
  {
    hide LastMove, Admitted, Step;
    if offers != [] {
      StepClocks(cfg, f, offers[0], topic);
      StepAgrees(cfg, f, offers[0]);
      ClocksFrom(cfg, Step(cfg, f, offers[0]), offers[1..], topic);
    }
  }

  /** Over every run the agent remembers of each topic when it was last offered, though it be dropped, and when its
      relayed value last differed from the one before. */
  lemma {:induction false} RunClocks(cfg: Config, offers: seq<Offer>, topic: string)
    ensures var f := Run(cfg, START, offers);
            && AtMap(f.clocks.seenAt, topic, LastOffered(cfg, offers, topic, None))
            && AtMap(f.clocks.changedAt, topic, LastMove(cfg, f.rows, topic))
  {
    StartHonest(cfg);
    ClocksFrom(cfg, START, offers, topic);
  }
}
