/** The partition upkeep of the database, over abstract tables: one transaction per call. */
module Databases {
  import opened Calendar
  import opened StringOrder
  import opened Retention
  import opened Options

  class Database {
    const retentionDays: nat
    var daily: map<(Parent, string), seq<Row>>
    var rest: map<Parent, seq<Row>>

    ghost function Value(): Tables
      reads this
    {
      Tables(daily, rest)
    }

    constructor (retentionDays: nat)
      ensures this.retentionDays == retentionDays && Value() == Tables(map[], map[])
    {
      this.retentionDays := retentionDays;
      daily, rest := map[], map[];
    }

    /** Missing partitions from today on; a refused one rolls the whole transaction back. */
    method EnsurePartitions(today: nat, ahead: nat) returns (ok: bool)
      requires Writable(today, ahead + 1)
      modifies `daily
      ensures Value() == Ensured(old(Value()), today, ahead)
      ensures ok <==> !AnyBlocked(old(Value()), today, ahead + 1)
    {
      hide WithDays, Blocked, StampOfDay, FourDigitYear;
      var made := daily;
      var offset := 0;
      NoDays(Value(), today);
      while offset <= ahead
        invariant offset <= ahead + 1 && daily == old(daily)
        invariant Tables(made, rest) == WithDays(Value(), today, offset)
        invariant !AnyBlocked(Value(), today, offset)
      {
        var refused;
        made, refused := Create(made, today + offset);
        OneMoreDay(Value(), today, offset);
        if refused {
          return false;
        }
        offset := offset + 1;
      }
      daily := made;
      return true;
    }

    /** `CREATE TABLE IF NOT EXISTS` for both parents. */
    method Create(made: map<(Parent, string), seq<Row>>, day: nat)
        returns (made': map<(Parent, string), seq<Row>>, refused: bool)
      requires FourDigitYear(day)
      ensures refused <==> Blocked(Tables(made, rest), Telemetry, day) || Blocked(Tables(made, rest), TopicSamples, day)
      ensures !refused ==> made' == WithDay(made, day)
    {
      hide DateOf, FourDigitYear;
      var stamp := StampOfDay(day);
      hide StampOfDay;
      made' := made;
      refused := Blocked(Tables(made', rest), Telemetry, day);
      if !refused {
        if (Telemetry, stamp) !in made' {
          made' := made'[(Telemetry, stamp) := []];
        }
        refused := Blocked(Tables(made', rest), TopicSamples, day);
        if !refused && (TopicSamples, stamp) !in made' {
          made' := made'[(TopicSamples, stamp) := []];
        }
      }
    }

    /** Partitions named for an expired date are dropped; rows the default partitions caught are swept. */
    method DropExpired(now: nat)
      requires retentionDays <= DayOf(now)
      modifies `daily, `rest
      ensures Value() == Swept(old(Value()), now, retentionDays)
    {
      var cutoff := DayOf(now) - retentionDays;
      hide Expired, KeepFrom, DayOf;
      var todo := daily.Keys;
      while todo != {}
        invariant todo <= old(daily).Keys && rest == old(rest)
        invariant daily == map k | k in old(daily) && (k in todo || !Expired(k.1, cutoff)) :: old(daily)[k]
        decreases |todo|
      {
        var k :| k in todo;
        if Expired(k.1, cutoff) {
          daily := daily - {k};
        }
        todo := todo - {k};
      }
      assert daily == Swept(old(Value()), now, retentionDays).daily;
      if Telemetry in rest {
        rest := rest[Telemetry := KeepFrom(rest[Telemetry], cutoff * DAY)];
      }
      if TopicSamples in rest {
        rest := rest[TopicSamples := KeepFrom(rest[TopicSamples], cutoff * DAY)];
      }
      assert rest == Swept(old(Value()), now, retentionDays).rest by {
        assert forall p :: p in rest ==> p == Telemetry || p == TopicSamples;
      }
    }

    /** The body of the maintenance loop up to the disk guard, which a refused upkeep skips as well. */
    method Maintain(started: nat, now: nat, ahead: nat) returns (ok: bool)
      requires Writable(DayOf(started), ahead + 1) && retentionDays <= DayOf(now)
      modifies `daily, `rest
      ensures Value() == Maintained(old(Value()), started, now, ahead, retentionDays)
      ensures ok <==> !AnyBlocked(old(Value()), DayOf(started), ahead + 1)
    {
      hide AnyBlocked, WithDays, Swept, DayOf, Writable;
      ok := EnsurePartitions(DayOf(started), ahead);
      if ok {
        DropExpired(now);
      }
    }

    /** The first partition of one table by name. */
    method FirstOf(p: Parent) returns (first: Option<string>)
      requires forall k :: k in daily ==> IsStamp(k.1)
      ensures first.None? <==> forall k :: k in daily ==> k.0 != p
      ensures first.Some? ==> (p, first.value) in daily
      ensures first.Some? ==> forall k :: k in daily && k.0 == p ==> !Less(k.1, first.value)
    {
      first := None;
      var todo := daily.Keys;
      while todo != {}
        invariant todo <= daily.Keys
        invariant first.None? ==> forall k :: k in daily && k !in todo ==> k.0 != p
        invariant first.Some? ==> (p, first.value) in daily
        invariant first.Some? ==> forall k :: k in daily && k !in todo && k.0 == p ==> !Less(k.1, first.value)
        decreases |todo|
      {
        var k :| k in todo;
        if k.0 == p && (first.None? || Less(k.1, first.value)) {
          if first.Some? {
            NotLess(k.1, first.value, daily.Keys);
          }
          NotLess(k.1, k.1, {});
          first := Some(k.1);
        }
        todo := todo - {k};
      }
    }

    /** None iff only the default partitions remain. */
    method OldestPartition() returns (oldest: Option<string>)
      requires forall k :: k in daily ==> IsStamp(k.1)
      ensures oldest.None? <==> daily == map[]
      ensures oldest.Some? ==> IsOldest(Value(), oldest.value)
    {
      oldest := FirstOf(Telemetry);
      var other := FirstOf(TopicSamples);
      if other.Some? && (oldest.None? || Less(other.value, oldest.value)) {
        if oldest.Some? {
          NotLess(other.value, oldest.value, daily.Keys);
        }
        oldest := other;
      } else if other.Some? {
        NotLess(oldest.value, other.value, daily.Keys);
      }
      assert daily.Keys == {} ==> daily == map[];
      assert forall k :: k in daily ==> k.0 == Telemetry || k.0 == TopicSamples;
    }

    /** Sheds the earliest managed day of both tables, if there is one. */
    method EmergencyDropOldestDay() returns (day: Option<string>)
      requires forall k :: k in daily ==> IsStamp(k.1)
      modifies `daily
      ensures day.None? <==> old(daily) == map[]
      ensures day.None? ==> Value() == old(Value())
      ensures day.Some? ==> IsOldest(old(Value()), day.value) && Value() == WithoutDay(old(Value()), day.value)
    {
      day := OldestPartition();
      if day.Some? {
        daily := daily - {(Telemetry, day.value), (TopicSamples, day.value)};
        forall k | k in old(daily) && k.1 == day.value ensures k !in daily {
          assert k == (k.0, day.value) && (k.0 == Telemetry || k.0 == TopicSamples);
        }
        assert daily == WithoutDay(old(Value()), day.value).daily;
      }
    }
  }

  function WithDay(made: map<(Parent, string), seq<Row>>, day: nat): map<(Parent, string), seq<Row>>
    requires FourDigitYear(day)
  {
    map[(Telemetry, StampOfDay(day)) := [], (TopicSamples, StampOfDay(day)) := []] + made
  }

  lemma {:induction false} NoDays(t: Tables, today: nat)
    ensures Writable(today, 0) && WithDays(t, today, 0) == t
  {
    assert DayKeys(today, 0) == {};
  }

  lemma {:induction false} DaysDiffer(a: nat, b: nat)
    requires a != b && FourDigitYear(a) && FourDigitYear(b)
    ensures StampOfDay(a) != StampOfDay(b)
  {
    DateOfValid(a); DateOfValid(b);
    StampRoundTrip(DateOf(a)); StampRoundTrip(DateOf(b));
    DateOrder(a, b);
  }

  lemma {:induction false} KeyNotMade(today: nat, n: nat, p: Parent)
    requires Writable(today, n + 1)
    ensures Writable(today, n) && (p, StampOfDay(today + n)) !in DayKeys(today, n)
  {
    hide StampOfDay, FourDigitYear;
    forall d: nat | today <= d < today + n ensures StampOfDay(d) != StampOfDay(today + n) {
      DaysDiffer(d, today + n);
    }
  }

  /** Whether a day is refused does not depend on the days made before it. */
  lemma {:induction false} SameRefusal(t: Tables, today: nat, n: nat, p: Parent)
    requires Writable(today, n + 1)
    ensures Writable(today, n)
    ensures Blocked(WithDays(t, today, n), p, today + n) <==> Blocked(t, p, today + n)
  {
    KeyNotMade(today, n, p);
    hide StampOfDay, FourDigitYear, DayKeys;
    assert Rest(WithDays(t, today, n), p) == Rest(t, p);
    assert (p, StampOfDay(today + n)) in WithDays(t, today, n).daily <==> (p, StampOfDay(today + n)) in t.daily;
  }

  lemma {:induction false} OneMoreDay(t: Tables, today: nat, n: nat)
    requires Writable(today, n + 1)
    ensures Writable(today, n)
    ensures WithDays(t, today, n + 1) == t.(daily := WithDay(WithDays(t, today, n).daily, today + n))
    ensures Blocked(WithDays(t, today, n), Telemetry, today + n) <==> Blocked(t, Telemetry, today + n)
    ensures Blocked(WithDays(t, today, n), TopicSamples, today + n) <==> Blocked(t, TopicSamples, today + n)
  {
    SameRefusal(t, today, n, Telemetry);
    SameRefusal(t, today, n, TopicSamples);
    hide StampOfDay, FourDigitYear, Blocked;
    OneMoreKey(today, n);
    hide DayKeys;
    var stamp := StampOfDay(today + n);
    MoreKeys(DayKeys(today, n), (Telemetry, stamp), (TopicSamples, stamp), t.daily);
  }

  lemma {:induction false} MoreKeys<K, V>(keys: set<K>, a: K, b: K, m: map<K, seq<V>>)
    ensures (map k | k in keys + {a, b} :: []) + m == map[a := [], b := []] + ((map k | k in keys :: []) + m)
  {
  }

  lemma {:induction false} OneMoreKey(today: nat, n: nat)
    requires Writable(today, n + 1)
    ensures Writable(today, n)
    ensures DayKeys(today, n + 1) ==
              DayKeys(today, n) + {(Telemetry, StampOfDay(today + n)), (TopicSamples, StampOfDay(today + n))}
  {
    hide StampOfDay, FourDigitYear;
  }

  /** Whatever is not below a stamp is not below a lesser stamp either. */
  lemma {:induction false} NotLess(a: string, b: string, keys: set<(Parent, string)>)
    requires IsStamp(a) && IsStamp(b) && (Less(a, b) || !Less(b, a))
    requires forall k :: k in keys ==> IsStamp(k.1)
    ensures forall k :: k in keys && !Less(k.1, b) ==> !Less(k.1, a)
    ensures !Less(a, a)
  {
    hide Less, Spelled;
    StampOrder(a, b);
    StampOrder(b, a);
    StampOrder(a, a);
    forall k | k in keys && !Less(k.1, b) ensures !Less(k.1, a) {
      StampOrder(k.1, b);
      StampOrder(k.1, a);
    }
  }
}
