/** The agent's local recorder as values: a directory of recordings in name order, rotation and pruning.

    Files are uncompressed, so a file is as large as what was written to it. */
module Recordings {
  import opened Options
  import opened StringOrder

  datatype File = File(name: string, size: nat)

  datatype Limits = Limits(gap: real, rotateBytes: nat, maxBytes: nat)

  /** `open` is the name of the file being written, `written` the bytes written to it. */
  datatype State = State(files: seq<File>, open: Option<string>, written: nat, disabled: bool,
                         lastAt: map<string, real>)

  function Size(files: seq<File>): nat {
    if files == [] then 0 else files[0].size + Size(files[1..])
  }

  ghost predicate Sorted(files: seq<File>) {
    forall i, j :: 0 <= i < j < |files| ==> Less(files[i].name, files[j].name)
  }

  predicate Named(files: seq<File>, name: string) {
    exists i :: 0 <= i < |files| && files[i].name == name
  }

  /** The directory with an empty file added, in name order. */
  function Added(files: seq<File>, name: string): seq<File> {
    if files == [] || Less(name, files[0].name) then [File(name, 0)] + files
    else [files[0]] + Added(files[1..], name)
  }

  function Appended(files: seq<File>, name: string, bytes: nat): seq<File> {
    if files == [] then []
    else if files[0].name == name then [files[0].(size := files[0].size + bytes)] + files[1..]
    else [files[0]] + Appended(files[1..], name, bytes)
  }

  /** Deletes from the front until at most `max` bytes are left; a file that cannot be deleted is skipped. */
  function Pruned(files: seq<File>, total: nat, max: nat, stuck: set<string>): seq<File>
    requires total >= Size(files)
    decreases |files|
  {
    if files == [] || total <= max then files
    else if files[0].name in stuck then [files[0]] + Pruned(files[1..], total, max, stuck)
    else Pruned(files[1..], total - files[0].size, max, stuck)
  }

  /** What the disk does with a sample: takes it, refuses before any file is made, or refuses the write, with a
      new file already made if one was needed. */
  datatype Disk = Takes | NoFile | NoWrite

  /** One sample of `bytes` bytes; `name` is the file a new recording would get. */
  datatype Sample = Sample(topic: string, ts: real, bytes: nat, name: string, disk: Disk, stuck: set<string>)

  function LastAt(s: State, topic: string): real {
    if topic in s.lastAt then s.lastAt[topic] else 0.0
  }

  predicate Skipped(lim: Limits, s: State, x: Sample) {
    s.disabled || (lim.gap > 0.0 && x.ts - LastAt(s, x.topic) < lim.gap)
  }

  function Noted(lim: Limits, s: State, x: Sample): State {
    if lim.gap > 0.0 then s.(lastAt := s.lastAt[x.topic := x.ts]) else s
  }

  function Opened(s: State, name: string): State {
    if s.open.Some? then s else s.(files := Added(s.files, name), open := Some(name), written := 0)
  }

  /** Right after the data is written, before any rotation. */
  function Written(s: State, x: Sample): State {
    var o := Opened(s, x.name);
    o.(files := Appended(o.files, o.open.value, x.bytes), written := o.written + x.bytes)
  }

  function Rotated(lim: Limits, s: State, stuck: set<string>): State {
    s.(open := None, files := Pruned(s.files, Size(s.files), lim.maxBytes, stuck))
  }

  function Step(lim: Limits, s: State, x: Sample): State {
    if Skipped(lim, s, x) then s
    else if x.disk.NoFile? then Noted(lim, s, x).(open := None, disabled := true)
    else if x.disk.NoWrite? then Opened(Noted(lim, s, x), x.name).(open := None, disabled := true)
    else
      var w := Written(Noted(lim, s, x), x);
      if w.written >= lim.rotateBytes then Rotated(lim, w, x.stuck) else w
  }

  function Run(lim: Limits, s: State, xs: seq<Sample>): State {
    if xs == [] then s else Step(lim, Run(lim, s, xs[..|xs| - 1]), xs[|xs| - 1])
  }

  // ---------------------------------------------------------------- pruning

  lemma {:induction false} PrunedFirst(files: seq<File>, max: nat)
    ensures Size([]) == 0
    ensures Pruned(files, Size(files), max, {}) ==
              if files == [] || Size(files) <= max then files else Pruned(files[1..], Size(files[1..]), max, {})
  {
  }

  /** With nothing stuck, pruning deletes the shortest prefix of the name order that brings the directory to
      at most `max` bytes. */
  lemma {:induction false} PrunesShortestPrefix(files: seq<File>, max: nat) returns (k: nat)
    ensures k <= |files| && Pruned(files, Size(files), max, {}) == files[k..]
    ensures Size(files[k..]) <= max
    ensures forall j :: 0 <= j < k ==> Size(files[j..]) > max
    decreases |files|
  {
    assert files[0..] == files;
    PrunedFirst(files, max);
    hide Size, Pruned;
    if files == [] || Size(files) <= max {
      k := 0;
    } else {
      var rest := files[1..];
      var n := PrunesShortestPrefix(rest, max);
      k := n + 1;
      assert rest[n..] == files[k..];
      forall j | 0 < j < k ensures Size(files[j..]) > max {
        assert rest[j - 1..] == files[j..];
      }
    }
  }

  /** Whatever cannot be deleted, pruning ends within the limit or with nothing left but what it cannot
      delete, and never grows the directory. */
  lemma {:induction false} PruneStops(files: seq<File>, extra: nat, max: nat, stuck: set<string>)
    ensures var left := Pruned(files, Size(files) + extra, max, stuck);
            && Size(left) <= Size(files)
            && (Size(left) + extra <= max || forall f :: f in left ==> f.name in stuck)
    decreases |files|
  {
    if files != [] && Size(files) + extra > max {
      if files[0].name in stuck {
        PruneStops(files[1..], extra + files[0].size, max, stuck);
      } else {
        PruneStops(files[1..], extra, max, stuck);
      }
    }
  }

  // ---------------------------------------------------------------- the directory

  lemma {:induction false} AddedIs(files: seq<File>, name: string)
    requires Sorted(files) && !Named(files, name)
    ensures Sorted(Added(files, name)) && Size(Added(files, name)) == Size(files)
    ensures forall f :: f in Added(files, name) <==> f in files || f == File(name, 0)
    decreases |files|
  {
    hide Less;
    if files == [] {
    } else if Less(name, files[0].name) {
      forall i | 0 <= i < |files| ensures Less(name, files[i].name) {
        if i > 0 {
          LessTransitive(name, files[0].name, files[i].name);
        }
      }
    } else {
      assert files[0].name != name && forall i :: 0 <= i < |files[1..]| ==> files[1..][i] == files[i + 1];
      LessTotal(name, files[0].name);
      AddedIs(files[1..], name);
      var rest := Added(files[1..], name);
      forall i | 0 <= i < |rest| ensures Less(files[0].name, rest[i].name) {
        assert rest[i] in rest;
        if rest[i] in files[1..] {
          var j :| 0 <= j < |files[1..]| && files[1..][j] == rest[i];
          assert files[j + 1] == rest[i];
        }
      }
    }
  }

  lemma {:induction false} AppendedNames(files: seq<File>, name: string, bytes: nat)
    ensures |Appended(files, name, bytes)| == |files|
    ensures forall i :: 0 <= i < |files| ==> Appended(files, name, bytes)[i].name == files[i].name
    decreases |files|
  {
    if files != [] && files[0].name != name {
      AppendedNames(files[1..], name, bytes);
    }
  }

  lemma {:induction false} AppendedSize(files: seq<File>, name: string, bytes: nat, i: nat)
    requires i < |files| && files[i].name == name
    ensures Size(Appended(files, name, bytes)) == Size(files) + bytes
    decreases |files|
  {
    if files[0].name != name {
      AppendedSize(files[1..], name, bytes, i - 1);
    }
  }

  lemma {:induction false} AppendedIs(files: seq<File>, name: string, bytes: nat)
    requires Sorted(files) && Named(files, name)
    ensures Sorted(Appended(files, name, bytes)) && Named(Appended(files, name, bytes), name)
    ensures Size(Appended(files, name, bytes)) == Size(files) + bytes
  {
    hide Less, Appended, Size;
    AppendedNames(files, name, bytes);
    var i :| 0 <= i < |files| && files[i].name == name;
    AppendedSize(files, name, bytes, i);
    assert Appended(files, name, bytes)[i].name == name;
  }

  lemma {:induction false} PrunedSorted(files: seq<File>, total: nat, max: nat, stuck: set<string>)
    requires Sorted(files) && total >= Size(files)
    ensures Sorted(Pruned(files, total, max, stuck))
    ensures forall f :: f in Pruned(files, total, max, stuck) ==> f in files
    decreases |files|
  {
    hide Less;
    if files != [] && total > max {
      assert forall i :: 0 <= i < |files[1..]| ==> files[1..][i] == files[i + 1];
      if files[0].name in stuck {
        PrunedSorted(files[1..], total, max, stuck);
        var rest := Pruned(files[1..], total, max, stuck);
        forall i | 0 <= i < |rest| ensures Less(files[0].name, rest[i].name) {
          assert rest[i] in files[1..];
        }
      } else {
        PrunedSorted(files[1..], total - files[0].size, max, stuck);
      }
    }
  }

  // ---------------------------------------------------------------- the disk bound

  /** Between samples, with `base` bytes allowed for closed files. */
  ghost predicate Bounded(lim: Limits, s: State, base: nat) {
    && Sorted(s.files)
    && lim.maxBytes <= base
    && match s.open
       case None => Size(s.files) <= base + (if s.disabled then lim.rotateBytes else 0)
       case Some(name) => Named(s.files, name) && s.written < lim.rotateBytes && Size(s.files) <= base + s.written
  }

  /** A sample fits the recorder: nothing stuck, and a new recording gets an unused name. */
  predicate Regular(s: State, x: Sample) {
    x.stuck == {} && (s.open.None? ==> !Named(s.files, x.name))
  }

  ghost predicate AllRegular(lim: Limits, s: State, xs: seq<Sample>) {
    forall i :: 0 <= i < |xs| ==> Regular(Run(lim, s, xs[..i]), xs[i])
  }

  lemma {:induction false} WrittenBounded(lim: Limits, s: State, x: Sample, base: nat)
    requires Bounded(lim, s, base) && Regular(s, x) && !s.disabled && lim.rotateBytes > 0
    ensures var w := Written(s, x);
            && Sorted(w.files) && w.open.Some? && Named(w.files, w.open.value)
            && Size(w.files) <= base + w.written && w.written < lim.rotateBytes + x.bytes
            && w.disabled == s.disabled
  {
    hide Size;
    if s.open.None? {
      AddedIs(s.files, x.name);
      var added := Added(s.files, x.name);
      assert File(x.name, 0) in added;
      var i :| 0 <= i < |added| && added[i] == File(x.name, 0);
      AppendedIs(added, x.name, x.bytes);
    } else {
      AppendedIs(s.files, s.open.value, x.bytes);
    }
  }

  lemma {:induction false} StepBounded(lim: Limits, s: State, x: Sample, base: nat)
    requires Bounded(lim, s, base) && Regular(s, x) && lim.rotateBytes > 0
    ensures Bounded(lim, Step(lim, s, x), base)
  {
    if !Skipped(lim, s, x) && x.disk.NoWrite? && s.open.None? {
      AddedIs(s.files, x.name);
    }
    if !Skipped(lim, s, x) && x.disk.Takes? {
      var n := Noted(lim, s, x);
      WrittenBounded(lim, n, x, base);
      var w := Written(n, x);
      if w.written >= lim.rotateBytes {
        PrunedSorted(w.files, Size(w.files), lim.maxBytes, {});
        var k := PrunesShortestPrefix(w.files, lim.maxBytes);
      }
      hide Pruned, Size, Sorted, Named, Written;
    }
  }

  /** Over every run, with every unlink succeeding, the directory between samples holds less than `rotate_bytes`
      beyond the larger of its initial size and `max_bytes`; while a sample is written it holds at most that
      sample more. */
  lemma {:induction false} DiskIsBounded(lim: Limits, s: State, xs: seq<Sample>, base: nat)
    requires lim.rotateBytes > 0 && AllRegular(lim, s, xs)
    requires Sorted(s.files) && s.open.None? && !s.disabled && Size(s.files) <= base && lim.maxBytes <= base
    ensures Bounded(lim, Run(lim, s, xs), base)
    ensures Size(Run(lim, s, xs).files) <= base + lim.rotateBytes
  {
    if xs != [] {
      var most, x := xs[..|xs| - 1], xs[|xs| - 1];
      assert forall i :: 0 <= i < |most| ==> most[..i] == xs[..i] && most[i] == xs[i];
      assert Regular(Run(lim, s, most), x);
      DiskIsBounded(lim, s, most, base);
      StepBounded(lim, Run(lim, s, most), x, base);
    }
  }

  /** The most the directory ever holds, in the middle of a sample. */
  lemma {:induction false} PeakIsBounded(lim: Limits, s: State, xs: seq<Sample>, x: Sample, base: nat)
    requires lim.rotateBytes > 0 && AllRegular(lim, s, xs) && Regular(Run(lim, s, xs), x)
    requires Sorted(s.files) && s.open.None? && !s.disabled && Size(s.files) <= base && lim.maxBytes <= base
    requires !Skipped(lim, Run(lim, s, xs), x)
    ensures Size(Written(Run(lim, s, xs), x).files) < base + lim.rotateBytes + x.bytes
  {
    DiskIsBounded(lim, s, xs, base);
    WrittenBounded(lim, Run(lim, s, xs), x, base);
  }

  /** After each rotation the closed files, which are then all files, total at most `max_bytes`. */
  lemma {:induction false} RotationPrunes(lim: Limits, s: State, x: Sample)
    requires x.disk.Takes? && x.stuck == {} && !Skipped(lim, s, x) && Step(lim, s, x).open.None?
    ensures Size(Step(lim, s, x).files) <= lim.maxBytes
  {
    var w := Written(Noted(lim, s, x), x);
    var k := PrunesShortestPrefix(w.files, lim.maxBytes);
  }

  // ---------------------------------------------------------------- the byte ledger

  /** What pruning deletes. */
  function Freed(files: seq<File>, total: nat, max: nat, stuck: set<string>): nat
    requires total >= Size(files)
    decreases |files|
  {
    if files == [] || total <= max then 0
    else if files[0].name in stuck then Freed(files[1..], total, max, stuck)
    else files[0].size + Freed(files[1..], total - files[0].size, max, stuck)
  }

  lemma {:induction false} PrunedPlusFreed(files: seq<File>, total: nat, max: nat, stuck: set<string>)
    requires total >= Size(files)
    ensures Size(Pruned(files, total, max, stuck)) + Freed(files, total, max, stuck) == Size(files)
    decreases |files|
  {
    if files != [] && total > max {
      if files[0].name in stuck {
        PrunedPlusFreed(files[1..], total, max, stuck);
      } else {
        PrunedPlusFreed(files[1..], total - files[0].size, max, stuck);
      }
    }
  }

  /** The bytes recorded in a run: those of every sample neither throttled nor refused. */
  function Recorded(lim: Limits, s: State, xs: seq<Sample>): nat {
    if xs == [] then 0 else
    var before, x := Run(lim, s, xs[..|xs| - 1]), xs[|xs| - 1];
    Recorded(lim, s, xs[..|xs| - 1]) + (if Skipped(lim, before, x) || !x.disk.Takes? then 0 else x.bytes)
  }

  function TotalFreed(lim: Limits, s: State, xs: seq<Sample>): nat {
    if xs == [] then 0 else
    var before, x := Run(lim, s, xs[..|xs| - 1]), xs[|xs| - 1];
    TotalFreed(lim, s, xs[..|xs| - 1]) + StepFreed(lim, before, x)
  }

  function StepFreed(lim: Limits, s: State, x: Sample): nat {
    if Skipped(lim, s, x) || !x.disk.Takes? then 0 else
    var w := Written(Noted(lim, s, x), x);
    if w.written >= lim.rotateBytes then Freed(w.files, Size(w.files), lim.maxBytes, x.stuck) else 0
  }

  lemma {:induction false} WrittenGrows(lim: Limits, s: State, x: Sample, base: nat)
    requires Bounded(lim, s, base) && Regular(s, x)
    ensures Size(Written(s, x).files) == Size(s.files) + x.bytes
  {
    hide Size;
    if s.open.None? {
      AddedIs(s.files, x.name);
      var added := Added(s.files, x.name);
      assert File(x.name, 0) in added;
      var i :| 0 <= i < |added| && added[i] == File(x.name, 0);
      AppendedIs(added, x.name, x.bytes);
    } else {
      AppendedIs(s.files, s.open.value, x.bytes);
    }
  }

  lemma {:induction false} StepConserves(lim: Limits, s: State, x: Sample, base: nat)
    requires Bounded(lim, s, base) && Regular(s, x)
    ensures Size(Step(lim, s, x).files) + StepFreed(lim, s, x)
            == Size(s.files) + (if Skipped(lim, s, x) || !x.disk.Takes? then 0 else x.bytes)
  {
    var n := Noted(lim, s, x);
    hide Size, Pruned, Freed, Sorted, Written;
    if x.disk.NoWrite? && s.open.None? {
      AddedIs(s.files, x.name);
    }
    if !Skipped(lim, s, x) && x.disk.Takes? {
      WrittenGrows(lim, n, x, base);
      PrunedPlusFreed(Written(n, x).files, Size(Written(n, x).files), lim.maxBytes, x.stuck);
    }
  }

  /** Over every run each recorded byte is in the directory or was pruned. */
  lemma {:induction false} BytesAreConserved(lim: Limits, s: State, xs: seq<Sample>, base: nat)
    requires lim.rotateBytes > 0 && AllRegular(lim, s, xs)
    requires Sorted(s.files) && s.open.None? && !s.disabled && Size(s.files) <= base && lim.maxBytes <= base
    ensures Size(Run(lim, s, xs).files) + TotalFreed(lim, s, xs) == Size(s.files) + Recorded(lim, s, xs)
  {
    hide Size, StepFreed, Skipped, Step, Sorted, Bounded;
    if xs != [] {
      var most, x := xs[..|xs| - 1], xs[|xs| - 1];
      assert forall i :: 0 <= i < |most| ==> most[..i] == xs[..i] && most[i] == xs[i];
      assert Regular(Run(lim, s, most), x);
      BytesAreConserved(lim, s, most, base);
      DiskIsBounded(lim, s, most, base);
      StepConserves(lim, Run(lim, s, most), x, base);
    }
  }

  // ---------------------------------------------------------------- throttling

  /** The sample is not refused out of hand: recording is on, and the sample is not too early. */
  predicate TakenAt(lim: Limits, s: State, xs: seq<Sample>, i: nat)
    requires i < |xs|
  {
    !Skipped(lim, Run(lim, s, xs[..i]), xs[i])
  }

  /** When the last sample of the topic was taken, 0 for never. */
  function LastTaken(lim: Limits, s: State, xs: seq<Sample>, topic: string): real {
    if xs == [] then LastAt(s, topic)
    else
      var init, x := xs[..|xs| - 1], xs[|xs| - 1];
      if x.topic == topic && !Skipped(lim, Run(lim, s, init), x) then x.ts else LastTaken(lim, s, init, topic)
  }

  lemma {:induction false} StepRemembers(lim: Limits, s: State, x: Sample, topic: string)
    requires lim.gap > 0.0
    ensures LastAt(Step(lim, s, x), topic) == if x.topic == topic && !Skipped(lim, s, x) then x.ts else LastAt(s, topic)
  {
    hide Added, Appended, Pruned, Size;
  }

  lemma {:induction false} RunRemembers(lim: Limits, s: State, xs: seq<Sample>, topic: string)
    requires lim.gap > 0.0
    ensures LastAt(Run(lim, s, xs), topic) == LastTaken(lim, s, xs, topic)
  {
    hide Step, Skipped, LastAt;
    if xs != [] {
      RunRemembers(lim, s, xs[..|xs| - 1], topic);
      StepRemembers(lim, Run(lim, s, xs[..|xs| - 1]), xs[|xs| - 1], topic);
    }
  }

  /** Over every run, with throttling on, exactly those samples are taken that come while recording is on and at least
      `gap` after the last one of their topic that was taken; without it, all that come while recording is on. */
  lemma {:induction false} TakenIff(lim: Limits, s: State, xs: seq<Sample>, i: nat)
    requires i < |xs|
    ensures TakenAt(lim, s, xs, i) <==>
              && !Run(lim, s, xs[..i]).disabled
              && (lim.gap > 0.0 ==> xs[i].ts - LastTaken(lim, s, xs[..i], xs[i].topic) >= lim.gap)
  {
    if lim.gap > 0.0 {
      RunRemembers(lim, s, xs[..i], xs[i].topic);
    }
    hide Run, LastTaken, LastAt;
  }

  lemma {:induction false} LastTakenIs(lim: Limits, s: State, xs: seq<Sample>, i: nat, j: nat)
    requires i < j <= |xs| && TakenAt(lim, s, xs, i)
    requires forall k :: i < k < j && xs[k].topic == xs[i].topic ==> !TakenAt(lim, s, xs, k)
    ensures LastTaken(lim, s, xs[..j], xs[i].topic) == xs[i].ts
    decreases j
  {
    hide Run, Skipped;
    assert xs[..j][..j - 1] == xs[..j - 1] && xs[..j][j - 1] == xs[j - 1];
    if i < j - 1 {
      assert xs[j - 1].topic == xs[i].topic ==> !TakenAt(lim, s, xs, j - 1);
      LastTakenIs(lim, s, xs, i, j - 1);
    }
  }

  /** Consecutive samples of one topic that are taken are at least `gap` apart. */
  lemma {:induction false} TakenAreSpaced(lim: Limits, s: State, xs: seq<Sample>, i: nat, j: nat)
    requires lim.gap > 0.0 && i < j < |xs| && xs[i].topic == xs[j].topic
    requires TakenAt(lim, s, xs, i) && TakenAt(lim, s, xs, j)
    requires forall k :: i < k < j && xs[k].topic == xs[i].topic ==> !TakenAt(lim, s, xs, k)
    ensures xs[j].ts - xs[i].ts >= lim.gap
  {
    TakenIff(lim, s, xs, j);
    LastTakenIs(lim, s, xs, i, j);
  }

  /** A sample the disk refuses leaves the directory as it was, but for an empty file if one was made for it. */
  lemma {:induction false} RefusalLeaves(lim: Limits, s: State, x: Sample)
    requires !Skipped(lim, s, x) && !x.disk.Takes? && Sorted(s.files) && (s.open.None? ==> !Named(s.files, x.name))
    ensures var s' := Step(lim, s, x);
            && s'.disabled && s'.open.None? && Sorted(s'.files) && Size(s'.files) == Size(s.files)
            && if x.disk.NoWrite? && s.open.None? then
                 forall f :: f in s'.files <==> f in s.files || f == File(x.name, 0)
               else s'.files == s.files
  {
    hide Size, Skipped;
    if x.disk.NoWrite? && s.open.None? {
      AddedIs(s.files, x.name);
    }
  }

  /** Recording is off for good after the first sample taken that the disk refused, and not before. */
  lemma {:induction false} OffIff(lim: Limits, s: State, xs: seq<Sample>)
    requires !s.disabled
    ensures Run(lim, s, xs).disabled <==> exists i :: 0 <= i < |xs| && TakenAt(lim, s, xs, i) && !xs[i].disk.Takes?
  {
    hide Skipped, Added, Appended, Pruned, Size;
    if xs != [] {
      var init, x := xs[..|xs| - 1], xs[|xs| - 1];
      OffIff(lim, s, init);
      assert forall i :: 0 <= i < |init| ==> init[..i] == xs[..i] && init[i] == xs[i];
      StepOff(lim, Run(lim, s, init), x);
      hide Run, Step;
      if i :| 0 <= i < |init| && TakenAt(lim, s, init, i) && !init[i].disk.Takes? {
        assert TakenAt(lim, s, xs, i) && !xs[i].disk.Takes?;
      }
      assert TakenAt(lim, s, xs, |xs| - 1) <==> !Skipped(lim, Run(lim, s, init), x);
      forall i | 0 <= i < |xs| - 1 && TakenAt(lim, s, xs, i) && !xs[i].disk.Takes?
        ensures TakenAt(lim, s, init, i) && !init[i].disk.Takes?
      {
      }
    }
  }

  lemma {:induction false} StepOff(lim: Limits, s: State, x: Sample)
    ensures Step(lim, s, x).disabled <==> s.disabled || (!Skipped(lim, s, x) && !x.disk.Takes?)
  {
    hide Added, Appended, Pruned, Size;
  }
}
