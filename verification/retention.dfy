/** Daily partitions and retention: which rows a retention run keeps, and for how long.

    A partitioned table has daily partitions named by their stamp and a default partition for every other
    row.  Times are milliseconds since the epoch, dates are UTC, and dates have four-digit years. */
module Retention {
  import opened Calendar
  import opened StringOrder
  import opened Options
  import Clock

  const DAY: nat := 86_400_000

  datatype Parent = Telemetry | TopicSamples

  datatype Row = Row(ts: nat, body: string)

  datatype Tables = Tables(daily: map<(Parent, string), seq<Row>>, rest: map<Parent, seq<Row>>)

  const EMPTY := Tables(map[], map[])

  function DayOf(ts: nat): nat {
    ts / DAY
  }

  predicate FourDigitYear(day: nat) {
    DateOf(day).year < 10000
  }

  function StampOfDay(day: nat): string
    requires FourDigitYear(day)
  {
    DateOfValid(day);
    Stamp(DateOf(day))
  }

  function Rest(t: Tables, p: Parent): seq<Row> {
    if p in t.rest then t.rest[p] else []
  }

  /** A row goes to the partition of its day, or to the default partition if that day has none. */
  function Inserted(t: Tables, p: Parent, row: Row): Tables
    requires FourDigitYear(DayOf(row.ts))
  {
    var key := (p, StampOfDay(DayOf(row.ts)));
    if key in t.daily then t.(daily := t.daily[key := t.daily[key] + [row]])
    else t.(rest := t.rest[p := Rest(t, p) + [row]])
  }

  predicate Writable(day: nat, n: nat) {
    forall d: nat :: day <= d < day + n ==> FourDigitYear(d)
  }

  /** The partition keys of `n` days from `day` on. */
  function DayKeys(day: nat, n: nat): set<(Parent, string)>
    requires Writable(day, n)
  {
    (set d: nat | day <= d < day + n :: (Telemetry, StampOfDay(d)))
    + (set d: nat | day <= d < day + n :: (TopicSamples, StampOfDay(d)))
  }

  /** A daily partition cannot be created while the default partition holds rows of that day. */
  predicate Blocked(t: Tables, p: Parent, day: nat)
    requires FourDigitYear(day)
  {
    (p, StampOfDay(day)) !in t.daily && exists row :: row in Rest(t, p) && DayOf(row.ts) == day
  }

  predicate AnyBlocked(t: Tables, day: nat, n: nat)
    requires Writable(day, n)
  {
    exists d: nat :: day <= d < day + n && (Blocked(t, Telemetry, d) || Blocked(t, TopicSamples, d))
  }

  function WithDays(t: Tables, day: nat, n: nat): Tables
    requires Writable(day, n)
  {
    t.(daily := (map k | k in DayKeys(day, n) :: []) + t.daily)
  }

  /** One transaction: all missing partitions, or none. */
  function Ensured(t: Tables, today: nat, ahead: nat): Tables
    requires Writable(today, ahead + 1)
  {
    if AnyBlocked(t, today, ahead + 1) then t else WithDays(t, today, ahead + 1)
  }

  /** Names whose stamp spells no existing date are skipped. */
  predicate Expired(stamp: string, cutoff: nat) {
    IsStamp(stamp) && Valid(Spelled(stamp)) && Before(Spelled(stamp), DateOf(cutoff))
  }

  function KeepFrom(rows: seq<Row>, ts: nat): seq<Row> {
    if rows == [] then []
    else KeepFrom(rows[..|rows| - 1], ts) + (if rows[|rows| - 1].ts < ts then [] else [rows[|rows| - 1]])
  }

  /** A retention run: expired daily partitions are dropped and the default partitions swept. */
  function Swept(t: Tables, now: nat, retentionDays: nat): Tables
    requires retentionDays <= DayOf(now)
  {
    var cutoff := DayOf(now) - retentionDays;
    Tables(map k | k in t.daily && !Expired(k.1, cutoff) :: t.daily[k],
           map p | p in t.rest :: KeepFrom(t.rest[p], cutoff * DAY))
  }

  /** One maintenance cycle: upkeep at `started`, then retention at `now`.  A refused upkeep ends the cycle. */
  function Maintained(t: Tables, started: nat, now: nat, ahead: nat, retentionDays: nat): Tables
    requires Writable(DayOf(started), ahead + 1) && retentionDays <= DayOf(now)
  {
    if AnyBlocked(t, DayOf(started), ahead + 1) then t
    else Swept(WithDays(t, DayOf(started), ahead + 1), now, retentionDays)
  }

  function WithoutDay(t: Tables, stamp: string): Tables {
    t.(daily := map k | k in t.daily && k.1 != stamp :: t.daily[k])
  }

  /** The earliest stamp among the daily partitions of both tables. */
  predicate IsOldest(t: Tables, stamp: string) {
    && (exists k :: k in t.daily && k.1 == stamp)
    && forall k :: k in t.daily ==> !Less(k.1, stamp)
  }

  predicate Has(t: Tables, p: Parent, row: Row) {
    || row in Rest(t, p)
    || exists k :: k in t.daily && k.0 == p && row in t.daily[k]
  }

  /** Every row of a daily partition belongs to its day. */
  ghost predicate Placed(t: Tables) {
    && (forall k :: k in t.daily ==> IsStamp(k.1))
    && (forall k, row :: k in t.daily && row in t.daily[k] ==>
          FourDigitYear(DayOf(row.ts)) && k.1 == StampOfDay(DayOf(row.ts)))
  }

  // ---------------------------------------------------------------- what one run keeps

  lemma {:induction false} KeepFromKeeps(rows: seq<Row>, ts: nat, row: Row)
    ensures row in KeepFrom(rows, ts) <==> row in rows && row.ts >= ts
  {
    if rows != [] {
      KeepFromKeeps(rows[..|rows| - 1], ts, row);
      assert rows == rows[..|rows| - 1] + [rows[|rows| - 1]];
    }
  }

  lemma {:induction false} DayBound(ts: nat, day: nat)
    ensures ts < day * DAY <==> DayOf(ts) < day
  {
  }

  lemma {:induction false} DayStampExpired(day: nat, cutoff: nat)
    requires FourDigitYear(day)
    ensures IsStamp(StampOfDay(day)) && (Expired(StampOfDay(day), cutoff) <==> day < cutoff)
  {
    DateOfValid(day);
    StampRoundTrip(DateOf(day));
    DateOrder(day, cutoff);
  }

  lemma {:induction false} SweptHas(t: Tables, now: nat, retentionDays: nat, p: Parent, row: Row)
    requires Placed(t) && retentionDays <= DayOf(now)
    ensures Has(Swept(t, now, retentionDays), p, row) <==> Has(t, p, row) && DayOf(row.ts) + retentionDays >= DayOf(now)
  {
    var cutoff := DayOf(now) - retentionDays;
    var t' := Swept(t, now, retentionDays);
    if p in t.rest {
      KeepFromKeeps(t.rest[p], cutoff * DAY, row);
    }
    DayBound(row.ts, cutoff);
    forall k | k in t.daily && row in t.daily[k] ensures Expired(k.1, cutoff) <==> DayOf(row.ts) < cutoff {
      DayStampExpired(DayOf(row.ts), cutoff);
    }
    hide Expired, DateOf, KeepFrom, DayOf;
    if k :| k in t.daily && k.0 == p && row in t.daily[k] {
      assert DayOf(row.ts) >= cutoff ==> k in t'.daily;
    }
  }

  // ---------------------------------------------------------------- runs

  datatype Op =
    | Insert(p: Parent, row: Row)
    | Ensure(today: nat, ahead: nat)
    | Sweep(now: nat)
    | Maintain(started: nat, now: nat, ahead: nat)
    | DropDay(stamp: string)

  predicate Possible(op: Op, retentionDays: nat) {
    match op
    case Insert(_, row) => FourDigitYear(DayOf(row.ts))
    case Ensure(today, ahead) => Writable(today, ahead + 1)
    case Sweep(now) => retentionDays <= DayOf(now)
    case Maintain(started, now, ahead) => Writable(DayOf(started), ahead + 1) && retentionDays <= DayOf(now)
    case DropDay(_) => true
  }

  function Step(t: Tables, op: Op, retentionDays: nat): Tables {
    if !Possible(op, retentionDays) then t else
    match op
    case Insert(p, row) => Inserted(t, p, row)
    case Ensure(today, ahead) => Ensured(t, today, ahead)
    case Sweep(now) => Swept(t, now, retentionDays)
    case Maintain(started, now, ahead) => Maintained(t, started, now, ahead, retentionDays)
    case DropDay(stamp) => WithoutDay(t, stamp)
  }

  function Run(t: Tables, ops: seq<Op>, retentionDays: nat): Tables
    decreases |ops|
  {
    if ops == [] then t else Run(Step(t, ops[0], retentionDays), ops[1..], retentionDays)
  }

  lemma {:induction false} DayKeysAreStamps(day: nat, n: nat)
    requires Writable(day, n)
    ensures forall k :: k in DayKeys(day, n) ==> IsStamp(k.1)
  {
    forall d: nat | day <= d < day + n ensures IsStamp(StampOfDay(d)) {
      DayStampExpired(d, 0);
    }
  }

  lemma {:induction false} DaysPlaced(t: Tables, day: nat, n: nat)
    requires Placed(t) && Writable(day, n)
    ensures Placed(WithDays(t, day, n))
  {
    DayKeysAreStamps(day, n);
    hide StampOfDay, DayKeys, IsStamp;
  }

  lemma {:induction false} InsertedPlaced(t: Tables, p: Parent, row: Row)
    requires Placed(t) && FourDigitYear(DayOf(row.ts))
    ensures Placed(Inserted(t, p, row))
  {
    DayStampExpired(DayOf(row.ts), 0);
    hide StampOfDay, IsStamp, FourDigitYear, Expired;
  }

  lemma {:induction false} StepPlaced(t: Tables, op: Op, retentionDays: nat)
    requires Placed(t)
    ensures Placed(Step(t, op, retentionDays))
  {
    hide StampOfDay, IsStamp, Expired, AnyBlocked, WithDays, Inserted;
    if Possible(op, retentionDays) {
      match op
      case Insert(p, row) => InsertedPlaced(t, p, row);
      case Ensure(today, ahead) => DaysPlaced(t, today, ahead + 1);
      case Sweep(_) =>
      case Maintain(started, _, ahead) => DaysPlaced(t, DayOf(started), ahead + 1);
      case DropDay(_) =>
    }
  }

  lemma {:induction false} RunPlaced(t: Tables, ops: seq<Op>, retentionDays: nat)
    requires Placed(t)
    ensures Placed(Run(t, ops, retentionDays))
    decreases |ops|
  {
    hide Step, Placed;
    if ops != [] {
      StepPlaced(t, ops[0], retentionDays);
      RunPlaced(Step(t, ops[0], retentionDays), ops[1..], retentionDays);
    }
  }

  lemma {:induction false} EmptyPlaced()
    ensures Placed(EMPTY)
  {
  }

  /** A retention run over any tables that came to be keeps exactly the rows whose day is at most `retentionDays`
      before today, in the daily and in the default partitions alike. */
  lemma {:induction false} SweepKeepsIff(ops: seq<Op>, now: nat, retentionDays: nat, p: Parent, row: Row)
    requires retentionDays <= DayOf(now)
    ensures var t := Run(EMPTY, ops, retentionDays);
            Has(Swept(t, now, retentionDays), p, row) <==> Has(t, p, row) && DayOf(row.ts) + retentionDays >= DayOf(now)
  {
    EmptyPlaced();
    RunPlaced(EMPTY, ops, retentionDays);
    SweptHas(Run(EMPTY, ops, retentionDays), now, retentionDays, p, row);
  }

  /** The stamp of an existing date before the given day, in four digits of year. */
  ghost predicate SpellsEarlierDate(stamp: string, day: nat) {
    exists d: Date :: Valid(d) && d.year < 10000 && Stamp(d) == stamp && Before(d, DateOf(day))
  }

  /** A retention run drops exactly the daily partitions named by an existing date more than `retentionDays` before
      today; one whose name spells no date stays. */
  lemma {:induction false} SweepDropsIff(t: Tables, now: nat, retentionDays: nat, k: (Parent, string))
    requires retentionDays <= DayOf(now) && k in t.daily
    ensures k !in Swept(t, now, retentionDays).daily <==> SpellsEarlierDate(k.1, DayOf(now) - retentionDays)
  {
    var cutoff := DayOf(now) - retentionDays;
    hide Stamp, DateOf, KeepFrom, Spelled;
    if Expired(k.1, cutoff) {
      SpelledBack(k.1);
    } else if d: Date :| Valid(d) && d.year < 10000 && Stamp(d) == k.1 && Before(d, DateOf(cutoff)) {
      StampRoundTrip(d);
    }
  }

  lemma {:induction false} WithDaysHas(t: Tables, day: nat, n: nat, p: Parent, row: Row)
    requires Writable(day, n)
    ensures Has(WithDays(t, day, n), p, row) <==> Has(t, p, row)
  {
    hide DayKeys;
    var t' := WithDays(t, day, n);
    if k :| k in t.daily && k.0 == p && row in t.daily[k] {
      assert k in t'.daily && t'.daily[k] == t.daily[k];
    }
  }

  lemma {:induction false} MaintainedHas(t: Tables, started: nat, now: nat, ahead: nat, retentionDays: nat, p: Parent,
                                         row: Row)
    requires Placed(t) && Writable(DayOf(started), ahead + 1) && retentionDays <= DayOf(now)
    ensures Has(Maintained(t, started, now, ahead, retentionDays), p, row) <==>
              && Has(t, p, row)
              && (DayOf(row.ts) + retentionDays >= DayOf(now) || AnyBlocked(t, DayOf(started), ahead + 1))
  {
    hide Has, AnyBlocked, WithDays, Placed, Swept;
    if !AnyBlocked(t, DayOf(started), ahead + 1) {
      DaysPlaced(t, DayOf(started), ahead + 1);
      WithDaysHas(t, DayOf(started), ahead + 1, p, row);
      SweptHas(WithDays(t, DayOf(started), ahead + 1), now, retentionDays, p, row);
    }
  }

  /** A maintenance cycle removes a row if and only if the row is expired and no covered day has rows of its own in
      the default partition without a partition. */
  lemma {:induction false} MaintenanceKeepsIff(ops: seq<Op>, started: nat, now: nat, ahead: nat, retentionDays: nat,
                                               p: Parent, row: Row)
    requires Writable(DayOf(started), ahead + 1) && retentionDays <= DayOf(now)
    ensures var t := Run(EMPTY, ops, retentionDays);
            Has(Maintained(t, started, now, ahead, retentionDays), p, row) <==>
              && Has(t, p, row)
              && (DayOf(row.ts) + retentionDays >= DayOf(now) || AnyBlocked(t, DayOf(started), ahead + 1))
  {
    EmptyPlaced();
    RunPlaced(EMPTY, ops, retentionDays);
    MaintainedHas(Run(EMPTY, ops, retentionDays), started, now, ahead, retentionDays, p, row);
  }

  /** A cycle covering day `d`, or an insert. */
  predicate Covers(op: Op, d: nat) {
    match op
    case Insert(_, _) => true
    case Maintain(started, _, ahead) => DayOf(started) <= d <= DayOf(started) + ahead
    case _ => false
  }

  /** One row of a covered day in the default partition stops every cycle until its day has passed: nothing is
      removed, however old, and it stops the next one too. */
  lemma {:induction false} BlockedCyclesRemoveNothing(t: Tables, ops: seq<Op>, d: nat, blocking: Parent,
                                                      retentionDays: nat, p: Parent, row: Row)
    requires FourDigitYear(d) && Blocked(t, blocking, d)
    requires forall i :: 0 <= i < |ops| ==> Covers(ops[i], d)
    ensures Blocked(Run(t, ops, retentionDays), blocking, d)
    ensures Has(t, p, row) ==> Has(Run(t, ops, retentionDays), p, row)
    decreases |ops|
  {
    hide Step, Blocked, Covers, Has;
    if ops != [] {
      BlockedStep(t, ops[0], d, blocking, retentionDays, p, row);
      BlockedCyclesRemoveNothing(Step(t, ops[0], retentionDays), ops[1..], d, blocking, retentionDays, p, row);
    }
  }

  lemma {:induction false} BlockedStep(t: Tables, op: Op, d: nat, blocking: Parent, retentionDays: nat, p: Parent,
                                       row: Row)
    requires FourDigitYear(d) && Blocked(t, blocking, d) && Covers(op, d)
    ensures Blocked(Step(t, op, retentionDays), blocking, d)
    ensures Has(t, p, row) ==> Has(Step(t, op, retentionDays), p, row)
  {
    hide StampOfDay, FourDigitYear;
    if Possible(op, retentionDays) {
      if op.Maintain? {
        assert AnyBlocked(t, DayOf(op.started), op.ahead + 1);
      } else {
        InsertedBlocks(t, op.p, op.row, d, blocking);
        if Has(t, p, row) {
          InsertedHas(t, op.p, op.row, p, row);
        }
      }
    }
  }

  lemma {:induction false} InsertedHas(t: Tables, q: Parent, new': Row, p: Parent, row: Row)
    requires FourDigitYear(DayOf(new'.ts)) && Has(t, p, row)
    ensures Has(Inserted(t, q, new'), p, row)
  {
    hide StampOfDay, FourDigitYear;
    if row !in Rest(t, p) {
      var k :| k in t.daily && k.0 == p && row in t.daily[k];
      var t' := Inserted(t, q, new');
      assert k in t'.daily && row in t'.daily[k];
    }
  }

  lemma {:induction false} InsertedBlocks(t: Tables, q: Parent, new': Row, d: nat, blocking: Parent)
    requires FourDigitYear(DayOf(new'.ts)) && FourDigitYear(d) && Blocked(t, blocking, d)
    ensures Blocked(Inserted(t, q, new'), blocking, d)
  {
    hide StampOfDay, FourDigitYear;
    var row :| row in Rest(t, blocking) && DayOf(row.ts) == d;
    assert row in Rest(Inserted(t, q, new'), blocking);
  }

  /** It takes no more than a row that arrives before its day has a partition. */
  lemma {:induction false} EarlyRowBlocks(p: Parent, row: Row, retentionDays: nat)
    requires FourDigitYear(DayOf(row.ts))
    ensures Blocked(Run(EMPTY, [Insert(p, row)], retentionDays), p, DayOf(row.ts))
  {
    hide StampOfDay, FourDigitYear;
    var t := Inserted(EMPTY, p, row);
    assert [Insert(p, row)][1..] == [] && Run(t, [], retentionDays) == t;
    assert row in Rest(t, p);
  }

  /** The times at which an operation may remove rows by their age. */
  predicate SweepsBefore(op: Op, limit: nat) {
    match op
    case Sweep(now) => now < limit
    case Maintain(_, now, _) => now < limit
    case _ => true
  }

  lemma {:induction false} StepKeeps(t: Tables, op: Op, retentionDays: nat, p: Parent, row: Row)
    requires Placed(t) && Has(t, p, row) && !op.DropDay?
    requires SweepsBefore(op, row.ts + retentionDays * DAY)
    ensures Has(Step(t, op, retentionDays), p, row)
  {
    hide Has, Placed, Swept, Maintained, Inserted, WithDays, AnyBlocked;
    if Possible(op, retentionDays) {
      match op
      case Insert(q, new') => InsertedHas(t, q, new', p, row);
      case Ensure(today, ahead) => WithDaysHas(t, today, ahead + 1, p, row);
      case Sweep(now) => SweptHas(t, now, retentionDays, p, row);
      case Maintain(started, now, ahead) => MaintainedHas(t, started, now, ahead, retentionDays, p, row);
    }
  }

  /** A stored row survives every run of inserts, partition upkeep, retention and maintenance at times before
      `ts + retention_days`. */
  lemma {:induction false} RowSurvives(t: Tables, ops: seq<Op>, retentionDays: nat, p: Parent, row: Row)
    requires Placed(t) && Has(t, p, row)
    requires forall i :: 0 <= i < |ops| ==> !ops[i].DropDay?
    requires forall i :: 0 <= i < |ops| ==> SweepsBefore(ops[i], row.ts + retentionDays * DAY)
    ensures Has(Run(t, ops, retentionDays), p, row)
    decreases |ops|
  {
    hide Has, Placed, Step, SweepsBefore;
    if ops != [] {
      StepKeeps(t, ops[0], retentionDays, p, row);
      StepPlaced(t, ops[0], retentionDays);
      RowSurvives(Step(t, ops[0], retentionDays), ops[1..], retentionDays, p, row);
    }
  }

  lemma {:induction false} RunSplit(t: Tables, a: seq<Op>, b: seq<Op>, retentionDays: nat)
    ensures Run(t, a + b, retentionDays) == Run(Run(t, a, retentionDays), b, retentionDays)
    decreases |a|
  {
    hide Step;
    if a == [] {
      assert a + b == b;
    } else {
      assert (a + b)[1..] == a[1..] + b;
      RunSplit(Step(t, a[0], retentionDays), a[1..], b, retentionDays);
    }
  }

  lemma {:induction false} InsertedIsThere(t: Tables, p: Parent, row: Row)
    requires FourDigitYear(DayOf(row.ts))
    ensures Has(Inserted(t, p, row), p, row)
  {
    hide StampOfDay, FourDigitYear;
    var key, t' := (p, StampOfDay(DayOf(row.ts))), Inserted(t, p, row);
    if key in t.daily {
      assert key in t'.daily && row in t'.daily[key];
    } else {
      assert row in Rest(t', p);
    }
  }

  /** From the moment it is inserted, whatever came before, a row survives every such run. */
  lemma {:induction false} InsertedRowSurvives(before: seq<Op>, ops: seq<Op>, retentionDays: nat, p: Parent, row: Row)
    requires FourDigitYear(DayOf(row.ts))
    requires forall i :: 0 <= i < |ops| ==> !ops[i].DropDay?
    requires forall i :: 0 <= i < |ops| ==> SweepsBefore(ops[i], row.ts + retentionDays * DAY)
    ensures Has(Run(EMPTY, before + [Insert(p, row)] + ops, retentionDays), p, row)
  {
    var t := Run(EMPTY, before, retentionDays);
    EmptyPlaced();
    RunPlaced(EMPTY, before, retentionDays);
    StepPlaced(t, Insert(p, row), retentionDays);
    InsertedIsThere(t, p, row);
    hide Inserted, Has, Placed, SweepsBefore, FourDigitYear;
    RunSplit(EMPTY, before, [Insert(p, row)], retentionDays);
    RunSplit(EMPTY, before + [Insert(p, row)], ops, retentionDays);
    assert [Insert(p, row)][1..] == [] && Run(Step(t, Insert(p, row), retentionDays), [], retentionDays)
           == Step(t, Insert(p, row), retentionDays);
    RowSurvives(Step(t, Insert(p, row), retentionDays), ops, retentionDays, p, row);
  }

  lemma {:induction false} InsertedAddsOnly(t: Tables, q: Parent, new': Row, p: Parent, row: Row)
    requires FourDigitYear(DayOf(new'.ts)) && !Has(t, p, row) && !(q == p && new' == row)
    ensures !Has(Inserted(t, q, new'), p, row)
  {
    hide StampOfDay, FourDigitYear;
    var t' := Inserted(t, q, new');
    assert row !in Rest(t', p);
    forall k | k in t'.daily && k.0 == p ensures row !in t'.daily[k] {
    }
  }

  lemma {:induction false} WithoutDayAddsNothing(t: Tables, stamp: string, p: Parent, row: Row)
    requires !Has(t, p, row)
    ensures !Has(WithoutDay(t, stamp), p, row)
  {
  }

  lemma {:induction false} StepAddsNothingElse(t: Tables, op: Op, retentionDays: nat, p: Parent, row: Row)
    requires Placed(t) && !Has(t, p, row) && op != Insert(p, row)
    ensures !Has(Step(t, op, retentionDays), p, row)
  {
    hide Has, Placed, Swept, Maintained, Inserted, WithDays, AnyBlocked, WithoutDay;
    if Possible(op, retentionDays) {
      match op
      case Insert(q, new') => InsertedAddsOnly(t, q, new', p, row);
      case Ensure(today, ahead) => WithDaysHas(t, today, ahead + 1, p, row);
      case Sweep(now) => SweptHas(t, now, retentionDays, p, row);
      case Maintain(started, now, ahead) => MaintainedHas(t, started, now, ahead, retentionDays, p, row);
      case DropDay(stamp) => WithoutDayAddsNothing(t, stamp, p, row);
    }
  }

  lemma {:induction false} GoneStaysGone(t: Tables, ops: seq<Op>, retentionDays: nat, p: Parent, row: Row)
    requires Placed(t) && !Has(t, p, row)
    requires forall i :: 0 <= i < |ops| ==> ops[i] != Insert(p, row)
    ensures !Has(Run(t, ops, retentionDays), p, row)
    decreases |ops|
  {
    hide Has, Placed, Step;
    if ops != [] {
      StepAddsNothingElse(t, ops[0], retentionDays, p, row);
      StepPlaced(t, ops[0], retentionDays);
      GoneStaysGone(Step(t, ops[0], retentionDays), ops[1..], retentionDays, p, row);
    }
  }

  lemma {:induction false} LifeInDays(lim: Clock.Limits, retentionDays: nat, recv: nat, raw: int, skew: Option<int>,
                                      ts: nat, now: nat)
    requires lim.maxFuture >= 0 && lim.maxBackfill >= 0
    requires ts == Clock.Correct(lim, raw, Clock.Correction(lim, skew), recv)
    ensures now < ts + retentionDays * DAY ==> DayOf(ts) + retentionDays >= DayOf(now)
    ensures now >= recv + lim.maxFuture + (retentionDays + 1) * DAY ==> DayOf(ts) + retentionDays < DayOf(now)
  {
    Clock.StampStaysInWindow(lim, raw, skew, recv);
    hide Clock.Correct;
  }

  /** Both bounds on the life of a topic row received at `recv`, whatever the vehicle's clock said and whatever came
      before: it survives retention before `ts + retention_days`; and from `recv + max_future +
      (retention_days + 1) days` on it is gone after a retention run, and after a maintenance cycle exactly if that
      was not refused or the row was not there; and what is gone does not come back. */
  lemma {:induction false} TopicRowLifetime(before: seq<Op>, later: seq<Op>, lim: Clock.Limits, retentionDays: nat,
                                            recv: nat, raw: int, skew: Option<int>, row: Row, started: nat, now: nat,
                                            ahead: nat)
    requires retentionDays <= DayOf(now) && Writable(DayOf(started), ahead + 1)
    requires lim.maxFuture >= 0 && lim.maxBackfill >= 0
    requires row.ts == Clock.Correct(lim, raw, Clock.Correction(lim, skew), recv)
    requires forall i :: 0 <= i < |later| ==> later[i] != Insert(TopicSamples, row)
    ensures var t := Run(EMPTY, before, retentionDays);
            var swept, kept := Swept(t, now, retentionDays), Maintained(t, started, now, ahead, retentionDays);
            && (now < row.ts + retentionDays * DAY && Has(t, TopicSamples, row) ==>
                  Has(swept, TopicSamples, row) && Has(kept, TopicSamples, row))
            && (now >= recv + lim.maxFuture + (retentionDays + 1) * DAY ==>
                  && !Has(Run(swept, later, retentionDays), TopicSamples, row)
                  && (Has(kept, TopicSamples, row)
                    <==> Has(t, TopicSamples, row) && AnyBlocked(t, DayOf(started), ahead + 1))
                  && (!Has(kept, TopicSamples, row) ==> !Has(Run(kept, later, retentionDays), TopicSamples, row)))
  {
    var t := Run(EMPTY, before, retentionDays);
    EmptyPlaced();
    RunPlaced(EMPTY, before, retentionDays);
    SweptHas(t, now, retentionDays, TopicSamples, row);
    MaintainedHas(t, started, now, ahead, retentionDays, TopicSamples, row);
    StepPlaced(t, Sweep(now), retentionDays);
    StepPlaced(t, Maintain(started, now, ahead), retentionDays);
    LifeInDays(lim, retentionDays, recv, raw, skew, row.ts, now);
    hide Run, Has, Placed, AnyBlocked, Maintained, Swept, DayOf, Clock.Correct, Clock.Correction;
    if now >= recv + lim.maxFuture + (retentionDays + 1) * DAY {
      GoneStaysGone(Swept(t, now, retentionDays), later, retentionDays, TopicSamples, row);
      if !Has(Maintained(t, started, now, ahead, retentionDays), TopicSamples, row) {
        GoneStaysGone(Maintained(t, started, now, ahead, retentionDays), later, retentionDays, TopicSamples, row);
      }
    }
  }

  /** The whole life of a topic row from its insertion: with retention at times before `ts + retention_days` in between,
      it is there for the next one if that comes before then, too; and gone for good after one from
      `recv + max_future + (retention_days + 1) days` on. */
  lemma {:induction false} InsertedTopicRowLifetime(before: seq<Op>, between: seq<Op>, later: seq<Op>,
                                                    lim: Clock.Limits, retentionDays: nat, recv: nat, raw: int,
                                                    skew: Option<int>, row: Row, now: nat)
    requires FourDigitYear(DayOf(row.ts)) && retentionDays <= DayOf(now)
    requires lim.maxFuture >= 0 && lim.maxBackfill >= 0
    requires row.ts == Clock.Correct(lim, raw, Clock.Correction(lim, skew), recv)
    requires forall i :: 0 <= i < |between| ==> !between[i].DropDay?
    requires forall i :: 0 <= i < |between| ==> SweepsBefore(between[i], row.ts + retentionDays * 86_400_000)
    requires forall i :: 0 <= i < |later| ==> later[i] != Insert(TopicSamples, row)
    ensures var t := Run(EMPTY, before + [Insert(TopicSamples, row)] + between, retentionDays);
            && Has(t, TopicSamples, row)
            && (now < row.ts + retentionDays * 86_400_000 ==> Has(Swept(t, now, retentionDays), TopicSamples, row))
            && (now >= recv + lim.maxFuture + (retentionDays + 1) * 86_400_000 ==>
                  !Has(Run(Swept(t, now, retentionDays), later, retentionDays), TopicSamples, row))
  {
    InsertedRowSurvives(before, between, retentionDays, TopicSamples, row);
    var all := before + [Insert(TopicSamples, row)] + between;
    YearIsWritable(recv);
    TopicRowLifetime(all, later, lim, retentionDays, recv, raw, skew, row, 0, now, 0);
  }

  lemma {:induction false} YearIsWritable(recv: nat)
    ensures Writable(DayOf(0), 1)
  {
    assert DayOf(0) == 0;
  }

  /** After partition upkeep that was not refused, rows of the covered days stay out of the default partition,
      whatever else is inserted. */
  lemma {:induction false} UpkeepKeepsRowsOutOfDefault(t: Tables, today: nat, ahead: nat, rows: seq<(Parent, Row)>)
    requires Writable(today, ahead + 1) && !AnyBlocked(t, today, ahead + 1)
    requires forall i :: 0 <= i < |rows| ==> today <= DayOf(rows[i].1.ts) <= today + ahead
    ensures InsertedAll(Ensured(t, today, ahead), rows).rest == t.rest
    ensures DayKeys(today, ahead + 1) <= InsertedAll(Ensured(t, today, ahead), rows).daily.Keys
  {
    if rows != [] {
      var most, last := rows[..|rows| - 1], rows[|rows| - 1];
      UpkeepKeepsRowsOutOfDefault(t, today, ahead, most);
      DayKeyOf(last.0, DayOf(last.1.ts), today, ahead + 1);
      hide StampOfDay, DayKeys, AnyBlocked, FourDigitYear;
    }
  }

  lemma {:induction false} DayKeyOf(p: Parent, day: nat, today: nat, n: nat)
    requires Writable(today, n) && today <= day < today + n
    ensures FourDigitYear(day) && (p, StampOfDay(day)) in DayKeys(today, n)
  {
    hide StampOfDay, DateOf;
    assert FourDigitYear(day);
    match p
    case Telemetry => assert (Telemetry, StampOfDay(day)) in DayKeys(today, n);
    case TopicSamples => assert (TopicSamples, StampOfDay(day)) in DayKeys(today, n);
  }

  /** Rows outside the four-digit years are not inserted. */
  function InsertedAll(t: Tables, rows: seq<(Parent, Row)>): Tables {
    if rows == [] then t else
    Step(InsertedAll(t, rows[..|rows| - 1]), Insert(rows[|rows| - 1].0, rows[|rows| - 1].1), 0)
  }

  // ---------------------------------------------------------------- the emergency drop

  predicate Managed(t: Tables, p: Parent, row: Row) {
    exists k :: k in t.daily && k.0 == p && row in t.daily[k]
  }

  /** Dropping the least stamp removes exactly the rows of the earliest managed day, from both tables: string
      order is date order. */
  lemma {:induction false} OldestIsEarliestDay(t: Tables, stamp: string, p: Parent, row: Row)
    requires Placed(t) && IsOldest(t, stamp)
    ensures forall k :: k in t.daily ==> k.1 == stamp || Before(Spelled(stamp), Spelled(k.1))
    ensures Has(WithoutDay(t, stamp), p, row) <==>
              row in Rest(t, p) || (Managed(t, p, row) && Before(Spelled(stamp), DateOf(DayOf(row.ts))))
  {
    forall k | k in t.daily ensures k.1 == stamp || Before(Spelled(stamp), Spelled(k.1)) {
      StampOrder(k.1, stamp);
    }
    var t' := WithoutDay(t, stamp);
    forall k | k in t.daily && row in t.daily[k]
      ensures k.1 != stamp <==> Before(Spelled(stamp), DateOf(DayOf(row.ts)))
    {
      DateOfValid(DayOf(row.ts));
      StampRoundTrip(DateOf(DayOf(row.ts)));
    }
    if k :| k in t.daily && k.0 == p && row in t.daily[k] {
      assert k.1 != stamp ==> k in t'.daily && t'.daily[k] == t.daily[k];
    }
  }
}
