/** The topic catalogue: accumulated in memory by `record_topics`, merged into the table by `_catalog_sync`. */
module Catalogue {
  type Key = (string, string)

  datatype Sample = Sample(key: Key, stamp: int, text: string, changed: bool)

  /** A catalogue row.  `lastChanged` 0 stands for "no change seen". */
  datatype Entry = Entry(samples: nat, lastValue: string, lastSeen: int, lastChanged: int)

  type Table = map<Key, Entry>

  const BLANK := Entry(0, "", 0, 0)

  function Noted(e: Entry, s: Sample): Entry {
    Entry(e.samples + 1, s.text, s.stamp, if s.changed then s.stamp else e.lastChanged)
  }

  /** One sample enters the accumulator. */
  function Note(cat: Table, s: Sample): Table {
    cat[s.key := Noted(if s.key in cat then cat[s.key] else BLANK, s)]
  }

  function Fold(samples: seq<Sample>): Table {
    if samples == [] then map[] else Note(Fold(samples[..|samples| - 1]), samples[|samples| - 1])
  }

  /** One row of the upsert: counts add, value and last-seen are replaced, and `last_changed` only moves
      forward, and only for a flush that contained a change. */
  function Merged(stored: Entry, e: Entry): Entry {
    Entry(stored.samples + e.samples, e.lastValue, e.lastSeen,
          if e.lastChanged != 0 && e.lastChanged > stored.lastChanged then e.lastChanged else stored.lastChanged)
  }

  function Upsert(table: Table, cat: Table): Table {
    map k | k in table.Keys + cat.Keys ::
      if k !in cat then table[k] else if k in table then Merged(table[k], cat[k]) else cat[k]
  }

  /** The catalogue a list of rows lists; a later row of the same topic wins. */
  function FromRows(rows: seq<(Key, Entry)>): Table {
    if rows == [] then map[] else FromRows(rows[..|rows| - 1])[rows[|rows| - 1].0 := rows[|rows| - 1].1]
  }

  lemma {:induction false} FromRowsKeys(rows: seq<(Key, Entry)>, k: Key)
    ensures k in FromRows(rows) <==> exists i :: 0 <= i < |rows| && rows[i].0 == k
  {
    if rows != [] {
      FromRowsKeys(rows[..|rows| - 1], k);
      assert forall i :: 0 <= i < |rows| - 1 ==> rows[..|rows| - 1][i] == rows[i];
    }
  }

  /** The statement is executed once per catalogue row; a catalogue lists each topic once. */
  method UpsertRows(table: Table, rows: seq<(Key, Entry)>) returns (r: Table)
    requires forall i, j :: 0 <= i < j < |rows| ==> rows[i].0 != rows[j].0
    ensures r == Upsert(table, FromRows(rows))
  {
    r := table;
    for i := 0 to |rows|
      invariant r == Upsert(table, FromRows(rows[..i]))
    {
      var (k, e) := rows[i];
      FromRowsKeys(rows[..i], k);
      assert rows[..i + 1][..i] == rows[..i];
      r := r[k := if k in r then Merged(r[k], e) else e];
    }
    assert rows[..|rows|] == rows;
  }

  // ---------------------------------------------------------------- batching does not show

  /** The table after flushing each batch of samples in turn. */
  function Stored(batches: seq<seq<Sample>>): Table {
    if batches == [] then map[] else Upsert(Stored(batches[..|batches| - 1]), Fold(batches[|batches| - 1]))
  }

  function Flat(batches: seq<seq<Sample>>): seq<Sample> {
    if batches == [] then [] else Flat(batches[..|batches| - 1]) + batches[|batches| - 1]
  }

  /** The two tables agree on everything but `last_changed`. */
  predicate Agree(a: Table, b: Table) {
    && a.Keys == b.Keys
    && forall k :: k in a ==>
         a[k].samples == b[k].samples && a[k].lastValue == b[k].lastValue && a[k].lastSeen == b[k].lastSeen
  }

  lemma {:induction false} UpsertNothing(table: Table)
    ensures Upsert(table, map[]) == table
    ensures Upsert(map[], table) == table
  {
  }

  lemma {:induction false} UpsertApart(table: Table, a: Table, b: Table)
    requires a.Keys !! b.Keys
    ensures Upsert(table, b + a) == Upsert(Upsert(table, a), b)
  {
  }

  /** Noting a sample commutes with the pending upsert. */
  lemma {:induction false} UpsertNoted(table: Table, cat: Table, s: Sample)
    ensures Agree(Upsert(table, Note(cat, s)), Note(Upsert(table, cat), s))
  {
  }

  lemma {:induction false} NoteAgrees(a: Table, b: Table, s: Sample)
    requires Agree(a, b)
    ensures Agree(Note(a, s), Note(b, s))
  {
  }

  lemma {:induction false} UpsertFold(table: Table, a: seq<Sample>, b: seq<Sample>)
    requires Agree(table, Fold(a))
    ensures Agree(Upsert(table, Fold(b)), Fold(a + b))
    decreases |b|
  {
    if b == [] {
      UpsertNothing(table);
      assert a + b == a;
    } else {
      var init, s := b[..|b| - 1], b[|b| - 1];
      UpsertFold(table, a, init);
      UpsertNoted(table, Fold(init), s);
      NoteAgrees(Upsert(table, Fold(init)), Fold(a + init), s);
      assert (a + b)[..|a + b| - 1] == a + init;
    }
  }

  /** The stored counts, last values and last-seen stamps are those of one fold over all samples, wherever
      the flushes fell. */
  lemma {:induction false} BatchingDoesNotShow(batches: seq<seq<Sample>>)
    ensures Agree(Stored(batches), Fold(Flat(batches)))
  {
    if batches != [] {
      BatchingDoesNotShow(batches[..|batches| - 1]);
      UpsertFold(Stored(batches[..|batches| - 1]), Flat(batches[..|batches| - 1]), batches[|batches| - 1]);
    }
  }

  // ---------------------------------------------------------------- last_changed

  function ChangedAt(table: Table, k: Key): int {
    if k in table then table[k].lastChanged else 0
  }

  lemma {:induction false} NotedChange(cat: Table, s: Sample, k: Key)
    ensures ChangedAt(Note(cat, s), k) == if s.key == k && s.changed then s.stamp else ChangedAt(cat, k)
  {
  }

  /** A change noted shows in the table to be; what is not a change does not. */
  lemma {:induction false} UpsertNotedChange(table: Table, cat: Table, s: Sample, k: Key)
    requires s.stamp > 0
    ensures var before, after := ChangedAt(Upsert(table, cat), k), ChangedAt(Upsert(table, Note(cat, s)), k);
            if s.key == k && s.changed then after >= s.stamp else after == before
  {
  }

  /** The stamp of the newest change of a topic, 0 if there was none. */
  function LastChange(samples: seq<Sample>, k: Key): int {
    if samples == [] then 0
    else
      var s := samples[|samples| - 1];
      if s.key == k && s.changed then s.stamp else LastChange(samples[..|samples| - 1], k)
  }

  /** The greatest stamp of any change of a topic. */
  function GreatestChange(samples: seq<Sample>, k: Key): int {
    if samples == [] then 0
    else
      var s, g := samples[|samples| - 1], GreatestChange(samples[..|samples| - 1], k);
      if s.key == k && s.changed && s.stamp > g then s.stamp else g
  }

  predicate Positive(samples: seq<Sample>) {
    forall i :: 0 <= i < |samples| ==> samples[i].stamp > 0
  }

  lemma {:induction false} FoldChangedAt(samples: seq<Sample>, k: Key)
    ensures ChangedAt(Fold(samples), k) == LastChange(samples, k)
  {
    if samples != [] {
      FoldChangedAt(samples[..|samples| - 1], k);
    }
  }

  lemma {:induction false} GreatestBounds(a: seq<Sample>, b: seq<Sample>, k: Key)
    ensures GreatestChange(a + b, k) == (if GreatestChange(a, k) > GreatestChange(b, k) then GreatestChange(a, k)
                                         else GreatestChange(b, k))
    ensures LastChange(b, k) <= GreatestChange(b, k) && GreatestChange(b, k) >= 0
    decreases |b|
  {
    if b == [] {
      assert a + b == a;
      GreatestNonneg(a, k);
    } else {
      GreatestBounds(a, b[..|b| - 1], k);
      assert (a + b)[..|a + b| - 1] == a + b[..|b| - 1];
    }
  }

  lemma {:induction false} GreatestNonneg(a: seq<Sample>, k: Key)
    ensures GreatestChange(a, k) >= 0
  {
    if a != [] {
      GreatestNonneg(a[..|a| - 1], k);
    }
  }

  lemma {:induction false} LastChangeConcat(a: seq<Sample>, b: seq<Sample>, k: Key)
    requires Positive(b)
    ensures LastChange(a + b, k) == if LastChange(b, k) > 0 then LastChange(b, k) else LastChange(a, k)
    ensures LastChange(b, k) >= 0
    decreases |b|
  {
    if b == [] {
      assert a + b == a;
    } else {
      assert (a + b)[..|a + b| - 1] == a + b[..|b| - 1];
      LastChangeConcat(a, b[..|b| - 1], k);
    }
  }

  /** Whatever the flush placement, the stored stamp lies between the newest change and the greatest one. */
  lemma {:induction false} StoredChangedBetween(batches: seq<seq<Sample>>, k: Key)
    requires Positive(Flat(batches))
    ensures LastChange(Flat(batches), k) <= ChangedAt(Stored(batches), k) <= GreatestChange(Flat(batches), k)
    ensures ChangedAt(Stored(batches), k) >= 0
  {
    if batches != [] {
      var init, last := batches[..|batches| - 1], batches[|batches| - 1];
      assert Flat(batches) == Flat(init) + last;
      assert Positive(Flat(init)) by {
        assert forall i :: 0 <= i < |Flat(init)| ==> Flat(init)[i] == Flat(batches)[i];
      }
      assert Positive(last) by {
        assert forall i :: 0 <= i < |last| ==> last[i] == Flat(batches)[|Flat(init)| + i];
      }
      StoredChangedBetween(init, k);
      FoldChangedAt(last, k);
      GreatestBounds(Flat(init), last, k);
      LastChangeConcat(Flat(init), last, k);
      FoldKeys(last, k);
      StoredKeys(init, k);
    }
  }

  lemma {:induction false} FoldKeys(samples: seq<Sample>, k: Key)
    ensures k in Fold(samples) <==> exists i :: 0 <= i < |samples| && samples[i].key == k
    ensures k !in Fold(samples) ==> LastChange(samples, k) == 0
  {
    if samples != [] {
      FoldKeys(samples[..|samples| - 1], k);
      var s := samples[|samples| - 1];
      assert samples == samples[..|samples| - 1] + [s];
    }
  }

  lemma {:induction false} StoredKeys(batches: seq<seq<Sample>>, k: Key)
    ensures k !in Stored(batches) ==> ChangedAt(Stored(batches), k) == 0
  {
  }

  /** One flush per sample. */
  function Singly(samples: seq<Sample>): seq<seq<Sample>> {
    if samples == [] then [] else Singly(samples[..|samples| - 1]) + [[samples[|samples| - 1]]]
  }

  lemma {:induction false} SinglyStoresGreatest(samples: seq<Sample>, k: Key)
    requires Positive(samples)
    ensures Flat(Singly(samples)) == samples
    ensures ChangedAt(Stored(Singly(samples)), k) == GreatestChange(samples, k)
  {
    if samples != [] {
      var init, s := samples[..|samples| - 1], samples[|samples| - 1];
      SinglyStoresGreatest(init, k);
      var bs := Singly(samples);
      assert bs[..|bs| - 1] == Singly(init) && bs[|bs| - 1] == [s];
      assert [s][..0] == [];
      assert Fold([s]) == Note(map[], s);
      assert samples == init + [s];
      GreatestNonneg(init, k);
    }
  }

  /** `last_changed` is independent of the flush placement exactly when the newest change of the topic also
      carries its greatest stamp, which nondecreasing change stamps guarantee. */
  lemma {:induction false} LastChangedInvariantIff(samples: seq<Sample>, k: Key)
    requires Positive(samples)
    ensures (forall batches :: Flat(batches) == samples ==>
            ChangedAt(Stored(batches), k) == ChangedAt(Fold(samples), k))
            <==> LastChange(samples, k) == GreatestChange(samples, k)
  {
    FoldChangedAt(samples, k);
    SinglyStoresGreatest(samples, k);
    forall batches | Flat(batches) == samples && LastChange(samples, k) == GreatestChange(samples, k)
      ensures ChangedAt(Stored(batches), k) == ChangedAt(Fold(samples), k)
    {
      StoredChangedBetween(batches, k);
    }
  }

  predicate IsChange(s: Sample, k: Key) {
    s.key == k && s.changed
  }

  lemma {:induction false} NondecreasingStampsSuffice(samples: seq<Sample>, k: Key)
    requires Positive(samples)
    requires forall i, j :: 0 <= i < j < |samples| && IsChange(samples[i], k) && IsChange(samples[j], k) ==>
                              samples[i].stamp <= samples[j].stamp
    ensures LastChange(samples, k) == GreatestChange(samples, k)
    ensures GreatestChange(samples, k) == 0
            || exists i :: 0 <= i < |samples| && IsChange(samples[i], k) &&
                           samples[i].stamp == GreatestChange(samples, k)
  {
    if samples != [] {
      var init := samples[..|samples| - 1];
      NondecreasingStampsSuffice(init, k);
      assert forall i :: 0 <= i < |init| ==> init[i] == samples[i];
    }
  }

  /** A vehicle clock set back between two changes makes the placement visible. */
  lemma {:induction false} ClockSetBackShows()
    ensures var k := ("r", "t");
            var s := [Sample(k, 20, "a", true), Sample(k, 10, "b", true)];
            && Flat([s]) == s && Flat([[s[0]], [s[1]]]) == s
            && ChangedAt(Stored([s]), k) == 10 && ChangedAt(Stored([[s[0]], [s[1]]]), k) == 20
  {
    var k := ("r", "t");
    var s := [Sample(k, 20, "a", true), Sample(k, 10, "b", true)];
    assert s[..1] == [s[0]] && [s[0]][..0] == [] && [s[1]][..0] == [];
    assert Fold([s[0]]) == Note(map[], s[0]) && Fold([s[1]]) == Note(map[], s[1]);
    assert Fold(s) == Note(Fold([s[0]]), s[1]);
    assert Stored([s]) == Upsert(map[], Fold(s));
    assert Flat([s]) == [] + s;
    var bs := [[s[0]], [s[1]]];
    assert bs[..1] == [[s[0]]] && [[s[0]]][..0] == [];
    assert Stored(bs[..1]) == Upsert(map[], Fold([s[0]]));
    assert Stored(bs) == Upsert(Upsert(map[], Fold([s[0]])), Fold([s[1]]));
    assert Flat(bs) == [] + [s[0]] + [s[1]];
  }
}
